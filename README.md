# Lounge access demo: recognition, enrollment and directory logic in Dafny

This project models the sequential logic of a premium-lounge access-control
front end: the face-recognition entry page, the face-enrollment dialog, the
member directory's search filter, and the member and access-log records with
their seed fixtures. The "recognition" there is a simulation: a timer fires
and a weighted random draw decides the outcome. The model proves what each
step of that simulation can and cannot produce.

- `data.dfy` (module `Data`): `Member` and `AccessLog`, the enumerations
  `Tier`, `MemberStatus` and `LogStatus`, the six seed members and five seed
  log entries, and facts about them. The facts are distinct ids, confidences
  within 0–100 %, granted entries that name a real member and copy its name,
  tier and portrait, and the "Unknown" sentinel of the denied entry.
- `directory.dfy` (module `Directory`): the directory's `filtered` list. The
  search is a case-insensitive substring test on name or email. The tier
  selector `"all"` lifts the tier test. The filter is proved sound, complete
  and order-preserving. Further lemmas cover the empty search, the exact tier
  test, the `"all"` selector and case-insensitivity.
- `recognition.dfy` (module `Recognition`): the entry page as a class. Its
  fields are the camera flag, the scan state, the matched member, the
  confidence and the roster. It also keeps the analysis timers still pending,
  each with the roster it captured, and an outbox of last-access updates.
  Random numbers are parameters in [0, 1). The functions that turn them into
  an outcome are proved to stay in range: the picked index is on the roster,
  a match confidence lies in 92.0–99.0 % and a no-match confidence in
  20.0–40.0 %. Companion lemmas show that every value in those ranges can
  occur.
- `enrollment.dfy` (module `Enrollment`): the dialog as a class. Its fields
  are the step, the captured photo, the form, the camera stream, the pending
  timers and the calls made on the owner (`onAdd`, `onClose`). The form
  setters and the guarded submission are pure functions.

Confidences are integers counting tenths of a percent (`987` is 98.7 %).

Nothing cancels a pending timer in this program, so the model lets every
timer fire in any state:

- On the entry page, stopping the camera does not stop a pending analysis.
  The result still appears, and a match still sends its last-access update
  (`StopDoesNotCancelScan`).
- In the dialog, a timer armed before the dialog was closed and reopened is
  "stale". When it fires it can move a fresh dialog from `camera` straight
  to `captured` (`StaleScanTimerScenario`). The dialog's `Valid()` therefore
  says: unless a stale timer has fired since the last opening, the step
  agrees with the timers armed in this opening. Under that condition each
  timer moves the step exactly one place along camera → scanning → captured
  → form.
- A camera stream that arrives after the dialog has closed is left running
  (`EarlyCloseLeaksStream`). So is a stream whose video element disappears
  under it. This happens when the `open` prop closes the dialog
  (`CloseByPropLeaksStream`) and when the entry page is left with its camera
  on (`UnmountLeaksStream`). In both cases the cleanup's `stopCamera` reads
  the stream through a video ref that React has already cleared. Both
  classes count such streams in `leakedStreams`.

Where the design intent and the code differ, the model follows the code:

- Stopping the recognition camera does not discard an in-flight scan result.
- Neither the enrollment dialog nor the entry page always releases its
  camera stream, as above.
- A scan on an empty roster is denied with confidence 0, outside the
  20.0–40.0 % range of a timer-driven denial.
- After a successful submission the dialog only calls `onClose`. The reset
  to `camera` happens the next time the owner opens it.
- The sixth seed member's name is written in the source as
  "Erik Lindstr√∂m", with the characters U+221A and U+2202 where "ö" was
  evidently meant. The model keeps that text, so a directory search for "ö"
  does not find this member and a search for "√" does.

## Model

| member | source | states |
|---|---|---|
| `Data.ParseTier` | src/lib/data.ts:5 | a string reads back as a tier exactly when it is "Platinum", "Gold" or "Silver" |
| `Data.TierNameRoundTrip` | src/lib/data.ts:5 | each tier's spelling reads back as that tier, and no two tiers share a spelling |
| `Data.FindMember` | src/lib/data.ts:16 | looking up a member id yields a roster member with that id, the first such member in roster order, and yields nothing exactly when no member has it |
| `Data.IdsDistinctFindsEach` | src/lib/data.ts:26-57 | in a roster with distinct ids, looking up any member's id finds that member |
| `Data.FindSeedMember` | src/lib/data.ts:26-57 | looking up the id of any seed member finds that member |
| `Data.SeedMemberIdsDistinct` | src/lib/data.ts:26-57 | there are six seed members and their ids are pairwise distinct |
| `Data.SeedLogsWellFormed` | src/lib/data.ts:59-65 | the seed log ids are pairwise distinct and every confidence lies in 0–100 % |
| `Data.SeedGrantedLogsReferToMembers` | src/lib/data.ts:59-65 | every granted seed entry names a seed member and repeats its name, tier and portrait, with confidence above 80 %; the denied entry is below 80 % |
| `Data.SeedDeniedLogIsSentinel` | src/lib/data.ts:62 | the only denied seed entry has member id "0", name "Unknown", tier "-" and no portrait; "0" is no member's id and "-" is no tier |
| `Directory.Lower` | src/pages/Members.tsx:13 | an upper-case ASCII letter becomes a lower-case letter; every other character is kept |
| `Directory.LowerCaseIdempotent` | src/pages/Members.tsx:13 | lower-casing twice equals lower-casing once, and its result has no upper-case ASCII letter |
| `Directory.IncludesHasOffset` | src/pages/Members.tsx:13 | a successful substring search yields an offset at which the search text occurs |
| `Directory.OffsetIncluded` | src/pages/Members.tsx:13 | any offset at which the search text occurs makes the substring search succeed |
| `Directory.IncludesIffOccurs` | src/pages/Members.tsx:13 | the substring search succeeds exactly when the search text occurs at some offset |
| `Directory.IncludesEmpty` | src/pages/Members.tsx:13 | every string contains the empty search text |
| `Directory.Filtered` | src/pages/Members.tsx:12-16 | the shown list is no longer than the roster, and every shown member is on the roster and passes both the search and the tier test |
| `Directory.SearchOnly` | src/pages/Members.tsx:13 | the list filtered by the search alone holds only roster members that match the search |
| `Directory.FilteredIsSubsequence` | src/pages/Members.tsx:12 | the shown list is a subsequence of the roster: same elements in roster order |
| `Directory.FilteredMembership` | src/pages/Members.tsx:12-16 | a member is shown exactly when it is on the roster, its lower-cased name or email contains the lower-cased search, and the tier test passes |
| `Directory.FilteredEverything` | src/pages/Members.tsx:13-14 | an empty search with the "all" selector shows the whole roster unchanged |
| `Directory.FilteredTierExact` | src/pages/Members.tsx:14 | with any selector other than "all", every shown member's tier is spelled as the selector |
| `Directory.FilteredAllIsSearchOnly` | src/pages/Members.tsx:14 | with the "all" selector the result equals filtering by the search alone |
| `Directory.FilteredCaseInsensitive` | src/pages/Members.tsx:13 | two searches that differ only in ASCII letter case show the same list |
| `Directory.DirectoryView` | src/pages/Members.tsx:12 | the directory page shows a subsequence of the seed members, each matching the search and the tier selector |
| `Recognition.Round` | src/pages/Index.tsx:63 | Math.round gives the integer within one half of its argument, halves rounding up |
| `Recognition.PickIndex` | src/pages/Index.tsx:61 | floor(draw × length) is a valid roster index for any draw in [0, 1) |
| `Recognition.PickIndexOnto` | src/pages/Index.tsx:61 | every roster position is chosen by some draw |
| `Recognition.MatchConfidence` | src/pages/Index.tsx:62-63 | a match confidence, rounded to a tenth, lies in 92.0–99.0 % |
| `Recognition.MatchConfidenceOnto` | src/pages/Index.tsx:62-63 | every tenth from 92.0 to 99.0 % is produced by some draw |
| `Recognition.NoMatchConfidence` | src/pages/Index.tsx:70 | a no-match confidence, rounded to a tenth, lies in 20.0–40.0 % |
| `Recognition.NoMatchConfidenceOnto` | src/pages/Index.tsx:70 | every tenth from 20.0 to 40.0 % is produced by some draw |
| `Recognition.ScanOutcome` | src/pages/Index.tsx:59-72 | the outcome is a match exactly when the draw exceeds 0.2 and the roster is non-empty; a match names a roster member with confidence 92.0–99.0 %, otherwise the confidence is 20.0–40.0 % |
| `Recognition.RecognitionPage.constructor` | src/pages/Index.tsx:12-16 | the page starts idle with the camera off, no match, confidence 0, an empty roster, no timers and no updates |
| `Recognition.RecognitionPage.RosterLoaded` | src/pages/Index.tsx:19-25 | the one fetch replaces the roster only when data came back and the page is still mounted; nothing else changes |
| `Recognition.RecognitionPage.StartCamera` | src/pages/Index.tsx:27-37 | the camera becomes active only when the stream is granted and the video element exists; a failure leaves the flag unchanged; a granted stream that replaces a running one, or that arrives after unmounting, is counted as leaked |
| `Recognition.RecognitionPage.StopCamera` | src/pages/Index.tsx:39-45 | the camera is off and its stream released, the state idle and the match cleared; the roster, the confidence and any pending timer are kept |
| `Recognition.RecognitionPage.Unmount` | src/pages/Index.tsx:76-78 | the page is gone and its camera flag with it; a stream that was running is not found by the cleanup, whose video ref is already cleared, and is counted as leaked; the rest of the state is as it was |
| `Recognition.RecognitionPage.SimulateScan` | src/pages/Index.tsx:47-56 | an empty roster gives `denied` with confidence 0 and no timer; otherwise the state is `scanning`, the match is cleared and one timer holding the current roster is armed |
| `Recognition.RecognitionPage.ScanTimerFires` | src/pages/Index.tsx:57-73 | while mounted the state becomes exactly one of `recognized` or `denied` as the outcome says; a recognized member is on the roster with confidence 92.0–99.0 %; the matched member's id is appended to the updates exactly on a match, even after unmounting |
| `Recognition.EmptyRosterScenario` | src/pages/Index.tsx:48-52 | scanning an empty roster ends `denied` with confidence 0, no timer and no store update |
| `Recognition.MatchScenario` | src/pages/Index.tsx:57-68 | with roster [a, b], a match draw and a pick of the first position, `a` is recognized with confidence 92.0–99.0 % and only `a`'s id is updated |
| `Recognition.StopDoesNotCancelScan` | src/pages/Index.tsx:39-73 | a scan stopped before its timer fires still ends `recognized`, with the camera off and the update issued |
| `Recognition.UnmountLeaksStream` | src/pages/Index.tsx:27-78 | leaving the page with the camera on leaves one stream running |
| `Recognition.StopThenUnmountReleases` | src/pages/Index.tsx:39-78 | stopping the camera before leaving the page leaves no stream running |
| `Enrollment.WithField` | src/components/AddMemberModal.tsx:186 | editing an input sets that key and leaves the other keys and the tier unchanged |
| `Enrollment.WithFieldOwnValue` | src/components/AddMemberModal.tsx:186 | writing back the value an input already holds leaves the form unchanged |
| `Enrollment.Submit` | src/components/AddMemberModal.tsx:70-86 | a member is produced exactly when name and email are non-empty; its name, email, tier, passport and nationality read back as the form, it has the given id and date, the captured photo, zero flights, status active and no last access |
| `Enrollment.EnrollmentDialog.constructor` | src/components/AddMemberModal.tsx:16-18 | a closed dialog at step camera with no photo, the blank form with tier Silver, no stream, no timers and no owner calls |
| `Enrollment.EnrollmentDialog.SetOpen` | src/components/AddMemberModal.tsx:36-46 | opening resets the step to camera, the photo to "" and the form to blank with tier Silver, arms the camera start and marks earlier timers as stale; closing removes the video element before the effect's stopCamera runs, so a running stream is counted as leaked; an unchanged prop changes nothing |
| `Enrollment.EnrollmentDialog.CameraStartFires` | src/components/AddMemberModal.tsx:20-29 | a granted stream is attached only when the video element is rendered; a denied request changes nothing; a stream with no element to hold it, or one replacing a running stream, is counted as leaked |
| `Enrollment.EnrollmentDialog.HandleScan` | src/components/AddMemberModal.tsx:48-49 | the step moves from camera to scanning and one scan timer is armed |
| `Enrollment.EnrollmentDialog.ScanTimerFires` | src/components/AddMemberModal.tsx:50-66 | the photo is set to the frame only when the video and canvas are rendered and a 2D context exists; the camera is stopped, the step becomes captured either way and the advance timer is armed; a timer of the current opening moves the step from scanning |
| `Enrollment.EnrollmentDialog.AdvanceTimerFires` | src/components/AddMemberModal.tsx:66 | the step becomes form; a timer of the current opening moves it from captured |
| `Enrollment.EnrollmentDialog.EditField` | src/components/AddMemberModal.tsx:186 | only the edited key of the form changes |
| `Enrollment.EnrollmentDialog.SelectTier` | src/components/AddMemberModal.tsx:195-198 | the tier becomes the chosen one and every input keeps its value |
| `Enrollment.EnrollmentDialog.HandleSubmit` | src/components/AddMemberModal.tsx:70-86 | with a name and an email, `onAdd` receives the new member and then `onClose` is called, once each; otherwise no call is made |
| `Enrollment.EnrollmentDialog.PressClose` | src/components/AddMemberModal.tsx:98 | the close button stops the camera and calls `onClose` |
| `Enrollment.EnrollmentScenario` | src/components/AddMemberModal.tsx:48-85 | a full run of open, scan, capture, form and submit hands `onAdd` a member with the captured frame, the typed fields, the chosen tier, zero flights and status active, then calls `onClose`, with no stream left running |
| `Enrollment.MissingEmailScenario` | src/components/AddMemberModal.tsx:71 | a submission without an email makes no owner call |
| `Enrollment.StaleScanTimerScenario` | src/components/AddMemberModal.tsx:36-50 | a scan timer armed before a close and reopen moves the fresh dialog from camera to captured |
| `Enrollment.EarlyCloseLeaksStream` | src/components/AddMemberModal.tsx:20-46 | closing before the 300 ms camera start leaves the stream it obtains running and unattached |
| `Enrollment.CloseByPropLeaksStream` | src/components/AddMemberModal.tsx:36-88 | closing through the `open` prop while the camera runs leaves its stream running |

## Left out

- Camera and canvas access are browser I/O. A stream is a flag, and a camera request is a `granted` parameter. The captured frame is an opaque string. The asynchronous resolution of the camera request is taken together with the timer that starts it, as one event.
- Timer durations (300 ms, 1.2 s, 2.5 s) are not modelled. Each expiry is an event method that needs a pending timer. The entry page's analysis timers fire in the order they were armed.
- The member store is a remote service. The roster fetch is an input (`RosterLoaded`), and the last-access update is an appended id in `lastAccessUpdates`. The update's timestamp and any failure are not modelled; the page ignores failures anyway.
- `Math.random` values are parameters in [0, 1). The 80 % / 20 % likelihood of a match and the uniformity of the pick are not modelled; only the threshold 0.2 is.
- Floating-point arithmetic is modelled as exact real arithmetic, and the one-decimal rounding as `Round`. Binary rounding error is not modelled.
- `Date.now()` ids and the ISO date of enrollment are the parameters `id` and `today`.
- `toLowerCase` is modelled for ASCII letters only. Unicode case mapping is not part of this model.
- React's timing is modelled only as far as the stream cleanup needs: refs to removed elements are cleared before effect cleanups run. State updates on an unmounted entry page are ignored. The enrollment dialog's own unmount is not modelled, only changes of its `open` prop.
- The owner's response to `onAdd` and `onClose` is not modelled. These calls are recorded in `calls` only.
- The entry page reads store rows with snake_case fields (`photo_url`, `passport_number`). The model uses the `Member` record, and the logic needs only its `id`.
- Rendering is not modelled. This covers the access-log page (its only logic is the 80 % colour and a status icon), the tier badge, the sidebar, the layout, the security page and the display-only "Max Capacity 20" figure.
- Button conditions become preconditions. `SimulateScan` requires a mounted page, where its button lives. `HandleScan` requires an open dialog at step camera, because its button is hidden after that step and disabled while scanning. `PressClose` requires an open dialog.
