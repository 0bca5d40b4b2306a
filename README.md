# ZpoStrona attendance client — a Dafny model

ZpoStrona is a browser page on which a student types an album (index) number,
the page checks with the backend that the student exists, shows the student's
attendance records with counts by status, and keeps a login session in
`localStorage` for 24 hours. This project models the logic under the page's
event handlers and proves what it promises:

- `records.dfy` — the student, schedule and attendance records (values).
- `attendance_view.dfy` — the statistics panel (counts by status), the status
  badge table (`getStatusInfo`) and the in-place sort that puts the most
  recently marked record first.
- `album_number.dfy` — `trim`, the six-digit validator, the live sanitiser of
  the album number field, and the submit handler's decision with the two
  backend lookups as parameters.
- `sessions.dfy` — the session under the key `zpoStrona_session`: the four
  store operations on the storage map, the `SessionStore` class that updates
  it in place, and the 24-hour restore rule.
- `page.dfy` — the `Page` controller class: visible section, logout dialog,
  album field, message banner, statistics and grid, with one method per event
  handler (`input`, `submit`, the delayed `login`, the completed attendance
  fetch, `restoreSession`, the dialog's buttons, Escape and background click).
- `wrappers.dfy` — `Option` (JavaScript `null`) and `Result`.

Time is an integer number of milliseconds passed in as `now`; `markedAt` is an
integer timestamp. Backend answers are parameters: `studentExists` and
`studentData` are functions from album number to the answer of
`checkStudentExists` / `getStudentData`, `attendancesOf` maps an index number
to the list `getStudentAttendances` returns for it (the empty list on any
failure, as it folds errors into `[]`), and a completed attendance fetch is the
list it returned.

The model follows the code throughout: the badge labels are the code's Polish
ones (`Obecny`, `Spóźniony`, `Nieobecny`, `Nieznany`), and a stored session
that cannot be parsed is not reported as absent (`JSON.parse` would throw), so
that case is not modelled.

## Model

| member | source | states |
|---|---|---|
| `AttendanceView.Count` | ZpoStrona/script.js:325-327 | a filter count is at most the list length, and zero exactly when no record has that status |
| `AttendanceView.CountIsMultiplicity` | ZpoStrona/script.js:325-327 | the filter count equals the multiplicity of the status among the records' statuses (exact string matches) |
| `AttendanceView.CountPermutation` | ZpoStrona/script.js:323-333 | filter counts are the same for any reordering of the records |
| `AttendanceView.ComputeStats` | ZpoStrona/script.js:309-330 | `total` is the list length, the three counts add up to at most the total, and an empty list gives all zeros |
| `AttendanceView.RecognisedCountsBounded` | ZpoStrona/script.js:323-328 | present + late + absent ≤ total, with equality exactly when every status is PRESENT, LATE or ABSENT |
| `AttendanceView.StatsAreMultiplicities` | ZpoStrona/script.js:323-328 | each displayed count is the number of records whose status is exactly that string |
| `AttendanceView.StatsPermutation` | ZpoStrona/script.js:323-333 | the statistics of a list and of any permutation of it (such as its sorted form) are equal |
| `AttendanceView.GetStatusInfo` | ZpoStrona/script.js:171-182 | the status table: PRESENT, LATE and ABSENT map to their own label and class; present/late classes exactly for PRESENT/LATE, absent style for everything else, label "Nieznany" exactly for unrecognised statuses |
| `AttendanceView.CountLabel` | ZpoStrona/script.js:337-350 | the number of cards carrying a badge label is at most the number of records |
| `AttendanceView.LabelsAgreeWithStats` | ZpoStrona/script.js:323-350 | the badges on the cards agree with the statistics panel; the records it does not count are exactly those labelled "Nieznany" |
| `AttendanceView.AdjacentDescIffSortedDesc` | ZpoStrona/script.js:333 | non-increasing `markedAt` between neighbours is the same as between every pair |
| `AttendanceView.SortByMarkedAtDesc` | ZpoStrona/script.js:333 | the array after the in-place sort is a permutation of the array before, with `markedAt` non-increasing |
| `AlbumNumber.Trim` | ZpoStrona/script.js:204 | the trimmed value is a slice of the input with only JavaScript whitespace removed around it, and neither starts nor ends with whitespace |
| `AlbumNumber.TrimNoWhitespace` | ZpoStrona/script.js:204 | a value without whitespace is unchanged by trimming |
| `AlbumNumber.ValidateAlbumNumber` | ZpoStrona/script.js:73-76 | a value is valid exactly when it is six characters that removing non-digits leaves unchanged (six ASCII digits); a valid value is unchanged by the sanitiser and by `trim` |
| `AlbumNumber.CheckAlbum` | ZpoStrona/script.js:211-223 | the early checks pass exactly when the trimmed value is six ASCII digits (`^\d{6}$`), passing the trimmed value on; "empty" is reported exactly for an empty trimmed value |
| `AlbumNumber.Submit` | ZpoStrona/script.js:211-243 | the submit handler's outcome: rejected exactly when the trimmed value is not six digits, "unknown student" exactly when the lookup says no, a greeting exactly when both lookups succeed, with the student the second lookup returned |
| `AlbumNumber.NoLookupUnlessValid` | ZpoStrona/script.js:211-229 | for a value failing the early checks the outcome is a rejection whatever the backend would answer, so no lookup takes part |
| `AlbumNumber.LookupUsesTrimmedAlbum` | ZpoStrona/script.js:204-238 | only the backend's answers for the trimmed album number influence the outcome |
| `AlbumNumber.Digits` | ZpoStrona/script.js:266 | removing non-digits leaves only ASCII digits and never lengthens the value |
| `AlbumNumber.DigitMultiplicity` | ZpoStrona/script.js:266 | every digit of the input is kept as often as it occurs, every other character is dropped |
| `AlbumNumber.DigitsAppend` | ZpoStrona/script.js:266 | removing non-digits from joined text gives the two parts' digits joined |
| `AlbumNumber.DigitsOfDigits` | ZpoStrona/script.js:266 | a value made of digits is left unchanged by removing non-digits |
| `AlbumNumber.Sanitise` | ZpoStrona/script.js:266-272 | the sanitised value holds only digits, at most six, and is the prefix of the input's digit subsequence of length min(6, number of digits) |
| `AlbumNumber.SanitiseIdempotent` | ZpoStrona/script.js:266-272 | sanitising a sanitised value changes nothing |
| `AlbumNumber.SanitisedIsValidIff` | ZpoStrona/script.js:262-272 | trimming a sanitised value changes nothing, and it passes validation exactly when the typed text held at least six digits |
| `Sessions.Lookup` | ZpoStrona/script.js:15-18 | `getSession` yields the stored session exactly when the key is present, and `null` otherwise |
| `Sessions.Saved` | ZpoStrona/script.js:6-13 | after `saveSession(s)` at `now`, reading the session gives student `s`, `loginTime = now` and no attendances; other storage keys are untouched |
| `Sessions.Removed` | ZpoStrona/script.js:20-22 | after `clearSession`, reading the session gives `null`; other storage keys are untouched |
| `Sessions.WithAttendances` | ZpoStrona/script.js:24-30 | `updateSessionAttendances` replaces only the attendance list, keeping student and login time, and is a no-op when no session is stored |
| `Sessions.SaveThenUpdate` | ZpoStrona/script.js:6-30 | a save followed by an attendance update leaves exactly the saved student, its login time and the new list |
| `Sessions.SaveOverwrites` | ZpoStrona/script.js:6-13 | a later save replaces an earlier session and its cached list entirely |
| `Sessions.UpdateAfterClear` | ZpoStrona/script.js:20-30 | updating attendances after a clear does not recreate a session |
| `Sessions.ClearIdempotent` | ZpoStrona/script.js:20-22 | clearing twice is the same as clearing once |
| `Sessions.SessionStore.Save` | ZpoStrona/script.js:6-13 | the stored map becomes the saved map; the current session is the fresh one |
| `Sessions.SessionStore.Get` | ZpoStrona/script.js:15-18 | returns the stored session, or `null` when the key is absent |
| `Sessions.SessionStore.Clear` | ZpoStrona/script.js:20-22 | the stored map loses the session entry and nothing else |
| `Sessions.SessionStore.UpdateAttendances` | ZpoStrona/script.js:24-30 | the stored map becomes the map with the attendance snapshot replaced |
| `Sessions.RestoreDecision` | ZpoStrona/script.js:33-70 | no session or no student: nothing; older than 24 h: expire; otherwise restored, showing the cached list whenever one is stored (even empty) and fetching only when the list is `null` |
| `Sessions.ExpiryBoundary` | ZpoStrona/script.js:38-45 | a session exactly 24 h old is restored; one millisecond older is expired |
| `Sessions.ExpiryIsFinal` | ZpoStrona/script.js:39-45 | once expired at some time, a session is expired at every later time |
| `Sessions.EmptyListIsNotRefetched` | ZpoStrona/script.js:60-65 | a session whose cached list is empty is restored with that empty list and no fetch |
| `Sessions.RestoreAfterSave` | ZpoStrona/script.js:33-70 | restoring within 24 h of a save, before any list was cached, fetches the saved student's list |
| `PageController.SubmitBanner` | ZpoStrona/script.js:211-246 | the submit handler shows a success message exactly when the student was found, naming the student, and an error message in every other case: "enter a number" exactly for an empty value, the not-found message naming the album for an unknown student |
| `PageController.Page.OnAlbumInput` | ZpoStrona/script.js:262-277 | whatever was typed, the field then holds its sanitised value and both messages are hidden |
| `PageController.Page.OnSubmit` | ZpoStrona/script.js:201-259 | the banner and the student handed to the delayed login follow `Submit`; no session is stored and nothing else on the page changes |
| `PageController.Page.Login` | ZpoStrona/script.js:280-303 | a fresh session for the student at `now` is saved, the attendance section is shown, the list the backend returns for the student's own index number is displayed, and the session caches it in displayed (sorted) order |
| `PageController.Page.LoadStudentAttendances` | ZpoStrona/script.js:146-155 | the fetched list is displayed and the same, now sorted, list is stored as the session's attendances |
| `PageController.Page.DisplayAttendances` | ZpoStrona/script.js:306-392 | statistics of the list as given; placeholder and zeros for an empty list; otherwise one card per record, a permutation of the list, most recent first |
| `PageController.Page.RestoreSession` | ZpoStrona/script.js:33-70 | returns true exactly when the restore rule restores; clears the store exactly when the session expired and leaves it intact otherwise; displays the cached list or returns the index number to fetch for |
| `PageController.Page.ShowLogoutConfirmation` | ZpoStrona/script.js:185-187 | the dialog is open and nothing else changes |
| `PageController.Page.CancelLogout` | ZpoStrona/script.js:189-191 | the dialog is closed and the stored session is untouched |
| `PageController.Page.OnKeyDown` | ZpoStrona/script.js:439-446 | Escape closes an open dialog without touching the session; any other key, or Escape with the dialog closed, changes nothing |
| `PageController.Page.OnDialogClick` | ZpoStrona/script.js:449-453 | a click on the dialog's background closes it; a click inside changes nothing |
| `PageController.Page.ConfirmLogout` | ZpoStrona/script.js:193-198 | the session is removed, the dialog closed, the empty login form shown with the logout message |
| `PageController.Page.ShowLogin` | ZpoStrona/script.js:427-436 | the login section is shown with an empty field and no message |

## Left out

- Network calls (`checkStudentExists`, `getStudentData`, `getStudentAttendances`, the `/health` probe at page load): their answers are parameters; URLs, HTTP status handling and JSON bodies are not modelled.
- DOM and HTML: `innerHTML` templates, the welcome text, the album label, CSS classes on the field, the per-card class from `status.toLowerCase()`, the button's disabled state and spinner; only the visible section, dialog, field value, banner, statistics and the grid's records are state.
- `showAttendanceDetails` (an `alert`), `formatDate` (locale formatting by the browser) and `console` logging.
- Timers: the 5 s / 3 s auto-dismiss of the banner and the 1 s delay before `login`; `OnSubmit` returns the student and `Login` is the later call.
- Concurrency: overlapping submits and fetch results that arrive late or out of order.
- JSON encoding in `localStorage`, parse failures and non-numeric `loginTime` values (the stored session is a typed value).
- The `catch` branches of the submit handler, `login` and `loadStudentAttendances`: the lookups catch their own errors, so these fire on exceptions from the rendering code and on a `localStorage.setItem` that throws (storage full or disabled) in `saveSession` or `updateSessionAttendances`. Storage writes always succeed in the model, so the error banner of `login` and the `displayAttendances([])` fallback of `loadStudentAttendances` are not modelled.
- Date parsing in the sort comparator: `markedAt` is an integer, so invalid dates (NaN comparisons) do not arise.
- `SortByMarkedAtDesc`: does not promise that records with equal `markedAt` keep their original relative order, although `Array.prototype.sort` is stable since ES2019 and the insertion step only moves a record past strictly older ones; stating stability would need the original positions carried through the in-place proof, and only the order by `markedAt` and the permutation are proved.
