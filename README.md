# GreytHR attendance automation — a Dafny model

This project models the decision logic of the GreytHR swipe-in automation. A
Puppeteer script logs in to the GreytHR portal and signs the employee in for
the day. An Express server runs it on a cron schedule or on request. Firestore
keeps one `daily_logs/<date>` record per day, plus the `config/*` documents.

The model covers five parts of the system:

- **Daily-log bookkeeping.** This is what `updateStatus` writes. It includes
  the cutover rule: before 20 November 2025 every write becomes PENDING with a
  fixed message. It also covers when `checkStatus` ends a run.
- **The flow of `run`.** The run initialises, logs in through a cascade of
  three strategies and swipes in. The flow reads the sign-in modal, the View
  Swipes table and the attendance widget through pure rules over page
  snapshots. It also covers the `safeElementAction` retry loop.
- **The server.** This covers `validateEnv`, `fetchTodayConfig`, the
  `/status` answer, `fetchScheduleCron` and `seedDefaultConfig`. It also
  covers `dailyTask`, the token and `force` rules of `/trigger` and `/seed`,
  and the cron listener that reschedules the daily task.
- **`loadEnvFile`** of the process-supervisor configuration.
- **The `NetworkCapture` helpers.** These are the URL classifiers and the
  token extractor.

The store is a `Firestore.Store` object whose document map is updated in
place. A merge write is `Firestore.Merge`, and an unreachable store makes every
read and write fail. The browser, the clock and the environment are inputs.
Page snapshots, the date `today`, the write timestamp `now` and the local time
of day are all parameters.

The modules, one file each, are listed below.

| Module | What it covers |
|---|---|
| `Wrappers` | Option, Result and Outcome (returned or threw) |
| `Search` | first match |
| `Strings` | the JavaScript string operations used |
| `IsoDate` | the cutover rule |
| `Firestore` | the store |
| `EnvFile` | `loadEnvFile` |
| `NetworkCapture` | the classifiers and the token extractor |
| `PageRules` | the widget, modal and table rules |
| `SignInFlow` | `handleSignInModal`, `signIn`, `signOut`, `viewSwipes` |
| `Login` | the strategies and the cascade |
| `Automation` | `GreytHRAutomation` and `safeElementAction` |
| `Server` | `server.js` |

## Model

| member | source | states |
|---|---|---|
| IsoDate.BeforeCutoverIsChronological | src/automate-login.js:214-216 | the string comparison `date < "2025-11-20"` holds on a well-formed `YYYY-MM-DD` date exactly when the date is chronologically before 20 November 2025 |
| IsoDate.Chronological | src/server.js:39-41 | string `<` on two well-formed ISO dates is year, then month, then day order |
| Firestore.Merge | src/automate-login.js:318-320 | a merge write keeps every stored field it does not write and replaces those it writes |
| Firestore.MergeTwice | src/automate-login.js:318-320 | two merge writes equal one write of their union, the later one winning; fields only the first wrote survive |
| Firestore.MergeIdempotent | src/automate-login.js:318-320 | repeating a merge write changes nothing |
| Firestore.Store.Read | src/server.js:81-92 | a read fails exactly when the store is down, and finds a document exactly when it is stored |
| Firestore.Store.SetMerge | src/automate-login.js:318-320 | a merge upsert of one document; nothing changes when the store is down |
| Firestore.Store.Set | src/server.js:103-115 | a full write of one document; nothing changes when the store is down |
| Firestore.FieldOr | src/server.js:506 | `data.k \|\| fallback` is the stored value exactly when it is truthy, else the fallback |
| EnvFile.LoadEnvFile | ecosystem.config.cjs:25-72 | the line loop computes the environment the file denotes: `{NODE_ENV: "production"}` updated by each kept `KEY=VALUE` line in file order |
| EnvFile.LastAssignmentWins | ecosystem.config.cjs:57-60 | a key ends up with its last kept value; an empty or placeholder value does not erase an earlier one; an unassigned key is absent, except NODE_ENV which stays "production" |
| EnvFile.NodeEnvDefault | ecosystem.config.cjs:27-34 | without a file the result is exactly `{NODE_ENV: "production"}`; with one, NODE_ENV stays "production" unless a line sets it |
| EnvFile.UnquoteStripsOnePair | ecosystem.config.cjs:50-55 | exactly one pair of matching outer quotes is removed, and an unquoted value is kept as is |
| EnvFile.LineEntryFacts | ecosystem.config.cjs:38-47 | blank lines, comment lines and lines with no key before "=" assign nothing; any key assigned is non-empty and has no "=" |
| EnvFile.LoadedEntriesWellFormed | ecosystem.config.cjs:44-60 | every loaded key is non-empty and free of "=", and every loaded value is neither empty nor the placeholder |
| EnvFile.LinesKeysWellFormed | ecosystem.config.cjs:44-47 | every line of the file yields a well-formed key or nothing |
| EnvFile.InertEntry | ecosystem.config.cjs:38-41 | a line that assigns nothing leaves the environment unchanged wherever it is inserted |
| EnvFile.IgnoredLineIsInert | ecosystem.config.cjs:38-41 | inserting a blank or comment line anywhere in the file leaves the result unchanged |
| NetworkCapture.ClassifiersByPosition | src/helpers.js:55-77 | each classifier holds exactly when one of its markers occurs at some position of the URL |
| NetworkCapture.ClassifiersKeptInLargerUrl | src/helpers.js:55-77 | a URL containing a classified URL is classified the same way |
| NetworkCapture.UpperCaseUrlNeverClassified | src/helpers.js:55-77 | matching is case-sensitive: a URL with no lower-case letter is never classified |
| NetworkCapture.MatchAt | src/helpers.js:84-90 | a match of `"key"\s*:\s*"([^"]+)"` at a position starts with the quoted key, and its capture is non-empty and quote-free |
| NetworkCapture.LeftmostIsFirst | src/helpers.js:92-97 | `String.prototype.match` yields the capture at the first matching position, and nothing exactly when no position matches |
| NetworkCapture.ExtractTokens | src/helpers.js:79-100 | the loop over the five patterns builds exactly the token map `Tokens` |
| NetworkCapture.TokensForFacts | src/helpers.js:92-97 | a key is present exactly when its pattern matches, with the leftmost capture as its value |
| NetworkCapture.TokenKeysOnly | src/helpers.js:84-90 | the result's keys are among the five token names, each present exactly when its pattern matches |
| NetworkCapture.TokenComesFromQuotedKey | src/helpers.js:84-97 | a token's value comes from the first place where the key occurs in its own quotes followed by `: "value"` |
| NetworkCapture.QuotedKeyRequired | src/helpers.js:84-97 | a key that does not occur in its own quotes gets no entry (`"access_token"` yields no `token` entry) |
| PageRules.FindSignIn | src/automate-login.js:910-929 | the signIn locator picks the first widget button whose label contains "Sign In", and finds none exactly when no button has one |
| PageRules.FindSignOut | src/automate-login.js:1002-1022 | the signOut locator picks the first button with "Sign Out" and shade "primary" |
| PageRules.FindViewSwipes | src/automate-login.js:816-831 | the View Swipes locator picks the first button named or labelled "View Swipes" |
| PageRules.VerifySignInSuccess | src/automate-login.js:1075-1099 | a sign-in is verified exactly when the first-found widget has a shadowed "Sign Out" button of shade "primary" named "primary" or unnamed |
| PageRules.VerifySignOutSuccess | src/automate-login.js:1105-1124 | a sign-out is verified exactly when the widget has a shadowed "Sign In" button |
| PageRules.VerificationMatchesLocators | src/automate-login.js:1075-1124 | a verified sign-in offers a button to the signOut locator, and a verified sign-out offers one to the signIn locator |
| PageRules.OtherNameNeverConfirms | src/automate-login.js:1087-1093 | a button named other than "primary" or "" never confirms a sign-in |
| PageRules.NameFallsBackToHost | src/automate-login.js:1087 | the host's name attribute is read only when the shadow button has none |
| PageRules.ChooseModalSubmit | src/automate-login.js:1434-1546 | the modal's submit choice is a pass over primary buttons, then over all shadowed ones; a click is only ever on an enabled "Sign In" button; the four error cases are exact |
| PageRules.FirstPrimaryCandidateDecides | src/automate-login.js:1447-1493 | the first primary "Sign In" button decides: disabled means failure even if an enabled one follows |
| PageRules.TextPassDecides | src/automate-login.js:1495-1540 | with no primary candidate, the first shadowed "Sign In" button decides the same way |
| PageRules.ScanSwipeRows | src/automate-login.js:848-866 | an IN swipe is reported exactly when some row's In/Out cell contains "IN", with the time from the first such row |
| PageRules.ScanIgnoresOtherRows | src/automate-login.js:851-866 | rows before the first IN row and every row after it do not change the result |
| PageRules.ReadSwipesModal | src/automate-login.js:844-866 | with no modal, no swipe is read |
| PageRules.TargetDropdown | src/automate-login.js:1250-1270 | the option passes search the first dropdown labelled "Enter Sign-In Location" |
| PageRules.OptionFirstPass | src/automate-login.js:1248-1313 | the first pass clicks the first container label its rule accepts; with a container it reports all its labels exactly when no label is accepted; it reports the missing-dropdown and missing-container cases |
| PageRules.OptionFallback | src/automate-login.js:1326-1377 | the fallback succeeds exactly when some shadow item label meets the looser rule |
| PageRules.SelectLocation | src/automate-login.js:1315-1393 | the location is selected exactly when the first pass selected it, or the first pass saw labels and the fallback matches one; otherwise the error lists the labels seen |
| PageRules.NoLabelsNoFallback | src/automate-login.js:1324-1392 | when the first pass saw no label, the fallback is not tried |
| PageRules.FallbackCoversFirstPass | src/automate-login.js:1296-1366 | the fallback accepts every label the first pass accepts, except through the client-location and on-duty rules |
| SignInFlow.PollDropdown | src/automate-login.js:1146-1190 | the poll loop stops at the first of at most 20 polls that sees the dropdown, or reports none after 20 |
| SignInFlow.Caught | src/automate-login.js:1662-1683 | a "Waiting for selector" error means no modal (false); any other error is rethrown |
| SignInFlow.ModalHandledMeansConfirmed | src/automate-login.js:1130-1684 | the modal is handled exactly when the dropdown appeared and opened, the location was selected, an enabled Sign In was clicked and the widget then confirms the sign-in |
| SignInFlow.NoDropdownNoModal | src/automate-login.js:1192-1199 | if no poll sees the dropdown, the modal is not handled |
| SignInFlow.SignInSucceedsOnlyWhenVerified | src/automate-login.js:902-993 | a sign-in succeeds exactly when the Sign In button was found, the modal was handled and the widget confirms it |
| SignInFlow.SignOutSucceedsOnlyWhenVerified | src/automate-login.js:994-1074 | a sign-out succeeds exactly when a primary Sign Out was found and the widget then offers Sign In |
| SignInFlow.ViewSwipes | src/automate-login.js:811-900 | without the button or the modal nothing is reported; with both, the modal's rows are the result unless closing and then Escape both throw; an IN swipe is reported only from those rows; Escape is pressed exactly when closing throws |
| SignInFlow.EscapeOnlyAfterFailedClose | src/automate-login.js:869-895 | a missing close button or a successful close needs no Escape; a failing Escape discards the rows read |
| Login.FillFirstUsable | src/automate-login.js:519-596 | each selector loop stops at the first usable element, and fails exactly when there is none |
| Login.Strategy1 | src/automate-login.js:500-628 | strategy 1 returns exactly when the inputs appeared, a usable employee-id and password field were found, pressing Enter (only done when no submit button was clicked) did not throw, and one of the two URLs looks authenticated; the first two failures are exact |
| Login.RunStrategy1 | src/automate-login.js:500-628 | the imperative strategy 1 ends exactly as `Strategy1` |
| Login.Recover | src/automate-login.js:690-705 | a destroyed context is recovered exactly when the URL after the wait looks authenticated; otherwise the same error is rethrown |
| Login.Strategy2 | src/automate-login.js:630-706 | strategy 2 returns exactly after a clean authenticated submit, or when the error it caught reports a destroyed execution context and the URL after the wait is authenticated; otherwise it rethrows that error, which is the page's own error when the page threw |
| Login.Strategy3 | src/automate-login.js:708-805 | strategy 3 returns exactly after a clean authenticated submit with at least two inputs, or when the error it caught reports a destroyed execution context and the URL after the wait is authenticated; otherwise it rethrows that error |
| Login.OwnFailuresNotRecovered | src/automate-login.js:690-705 | the strategies' own failure messages are never mistaken for a navigation |
| Login.Login | src/automate-login.js:482-498 | the cascade tries the strategies in order, stops at the first that returns and throws what strategy 3 throws |
| Automation.StatusFields | src/automate-login.js:266-320 | on or after the cutover the record carries the requested status, and `extra` goes under swipeTime, failureReason or message by status; before it, PENDING with the fixed message; `empId` is written exactly when EMP_ID is set |
| Automation.WriteDecidesSettled | src/automate-login.js:241-257 | after the cutover a DONE write settles the day and a FAILED write unsettles it |
| Automation.UnsetEmpIdKeepsStored | src/automate-login.js:97 | a write made while EMP_ID is unset (an `undefined` field, which the store ignores) keeps the stored `empId` |
| Automation.CutoverWriteSettles | src/automate-login.js:275-295 | before the cutover every write leaves a record that settles the day |
| Automation.MessageHasMarker | src/automate-login.js:280-283 | the fixed PENDING message contains "before initial day" |
| Automation.RecordedSwipeTime | src/automate-login.js:1749-1772 | the DONE time is the swipe time read again when non-empty, else the local clock |
| Automation.RetryPicksFirstFinal | src/automate-login.js:2363-2381 | `safeElementAction` ends as the first attempt that is not a destroyed-context error, or as the last attempt allowed, or undefined with no try |
| Automation.SafeElementAction | src/automate-login.js:2363-2381 | the retry loop computes `RetryFrom` with between 1 and `retries` calls |
| Automation.GreytHRAutomation.After | src/automate-login.js:266-353 | a status write upserts only the day's record, and changes nothing without a db or with a down store |
| Automation.GreytHRAutomation.UpdateStatus | src/automate-login.js:266-353 | the imperative field-by-field write yields exactly `After` |
| Automation.GreytHRAutomation.CheckStatus | src/automate-login.js:218-264 | the run stops exactly on `StopsEarly`; before the cutover it writes PENDING first; otherwise the store is untouched |
| Automation.FetchWorkLocationConfig | src/automate-login.js:176-206 | the stored location and remarks, each defaulted ("Office", "") when falsy or unreadable; the location is always truthy |
| Automation.GreytHRAutomation.ValidateCredentials | src/automate-login.js:355-368 | credentials pass exactly when both are non-empty; otherwise exit 1 as a script or throw as a module |
| Automation.GreytHRAutomation.Init | src/automate-login.js:370-381 | an early stop exits 0 or throws "Task already completed for today"; otherwise it ends as `ValidateCredentials` |
| Automation.GreytHRAutomation.SwipeIn | src/automate-login.js:1685-1784 | it returns exactly when the widget appeared and the day was already swiped in or the sign-in succeeded; no widget throws with nothing written; an IN swipe skips sign-in and writes DONE only with a time; a failed sign-in writes FAILED and throws; a success writes DONE with the recorded time |
| Automation.GreytHRAutomation.Steps | src/automate-login.js:2384-2395 | the steps after init end as `StepsOutcome`, the first step that throws deciding; they succeed exactly when the browser launched, some strategy logged in, the widget appeared, the day was already swiped in or the sign-in succeeded, and the browser closed; a launch error or strategy 3's error is what they throw; the store changes only through `swipeIn`, after a successful login |
| Automation.GreytHRAutomation.Run | src/automate-login.js:2383-2425 | as written: the run ends as `RunEnding` of the early stop, the credentials and `StepsOutcome` on the session; it completes exactly when it is not stopped early, the credentials pass and every step succeeds; any failure raised in server mode is recorded as FAILED with its message, including the early stop |
| Automation.RunEnding | src/automate-login.js:2383-2425 | `run` completes exactly when not stopped early, with credentials, and with every step succeeding; as a script it exits 0 on the early stop and 1 on any failure; as a module it rethrows "Task already completed for today", the missing-credentials error or the failed step's own error |
| Automation.GreytHRAutomation.RecordsFailure | src/automate-login.js:2401-2409 | after the catch's FAILED write the day's record shows the failure and its reason |
| Automation.GreytHRAutomation.SettledDayMarkedFailed | src/automate-login.js:2401-2409 | a settled day becomes unsettled and FAILED with "Task already completed for today" after `run`'s catch |
| Automation.GreytHRAutomation.RunFixed | src/automate-login.js:2383-2425 | the early stop is rethrown without a write, so a settled day is left as stored; every other failure is recorded |
| Server.MissingKeys | src/server.js:16 | the filter keeps exactly the unset keys, in order |
| Server.ValidateEnv | src/server.js:14-27 | the process exits exactly when some required variable is unset or empty |
| Server.FetchTodayConfig | src/server.js:68-95 | before the cutover the made-up PENDING record; otherwise the stored record or `{}`; a failing read throws |
| Server.StatusView | src/server.js:370-409 | `/status` reports swiped exactly when the stored status is DONE, reports PENDING before the cutover or with no record, and fails exactly when the read does |
| Server.DoneWriteShowsSwiped | src/server.js:370-409 | after the automation's DONE write, `/status` reports the day as swiped in |
| Server.FetchScheduleCron | src/server.js:202-214 | the stored cron expression when truthy, else "0 9 * * *" |
| Server.SeedOne | src/server.js:101-122 | each seeding step writes the default only where the document is absent and changes no stored document |
| Server.SeedKeepsExisting | src/server.js:98-199 | seeding never changes a stored document and leaves all four config documents present |
| Server.SeedIdempotent | src/server.js:98-199 | a second seeding run, at any time, changes nothing |
| Server.SeededScheduleIsDefault | src/server.js:101-122 | on a store without a schedule, the cron read after seeding is the default |
| Server.SeedDoc | src/server.js:101-122 | one read-then-write-if-missing step; a failing read stops it |
| Server.SeedDefaultConfig | src/server.js:98-199 | the four documents in order; the first error ends the seeding and is swallowed |
| Server.ResolveToken | src/server.js:416-419 | the token is the first truthy candidate, else the server's own |
| Server.TokenRule | src/server.js:342-351 | with no token supplied the request passes whenever the server has one; a supplied token passes exactly when it equals the server's |
| Server.ForceSpellings | src/server.js:427-430 | GET forces on query "true" or "1" or header "true"; POST on JSON true or "true" or the header; "1" forces a GET but not a POST |
| Server.DailyTask | src/server.js:245-319 | without force a SKIP or DONE day returns at once and writes nothing; a read failure is an ERROR result; otherwise `run` as written runs, the result is a success exactly when that run completes on the session, and a failure carries "Automation failed: " and the run's error; the message of a success says whether a DONE day was forced; a failed run on or after the cutover leaves its error recorded as the day's failure, and a PENDING "before initial day" record on or after the cutover ends FAILED with "Task already completed for today"; before the cutover an unforced run always fails with that message |
| Server.Trigger | src/server.js:415-484 | 403 exactly when the token check fails, with nothing written; an automation run reports the method's own reading of force |
| Server.CronListener.constructor | src/server.js:489-490 | nothing is scheduled at start |
| Server.CronListener.OneTaskRunning | src/server.js:505-524 | at most one scheduled task still runs: the current one |
| Server.CronListener.OnSnapshot | src/server.js:497-524 | a missing document or an unchanged expression changes nothing; otherwise the previous task is stopped and the new expression (the default when falsy) scheduled and recorded |

## Left out

- Browser mechanics (typing, clicking, waits, screenshots, navigation) are left out. Every page state is an input snapshot taken where the source inspects the page.
- The browser launch is only a step that may throw, and `navigate` catches its own errors, so it is not a step of the model. The headless and launch options are left out.
- `fetchLocationConfig` (GPS coordinates) and the geolocation override are left out. Coordinates are floating point and affect no decision.
- The remarks field of the sign-in modal is left out. That step cannot fail and changes no outcome.
- Notifications (`sendNotification`), console output, `process.exit` and Express itself are left out. An exit is modelled as `Exited(code)` or `Exit(code)`.
- The `/config` and `/health` endpoints are left out. They only read documents.
- node-cron's validation and firing of expressions is left out. The listener records what it schedules and stops.
- The scheduled task is `dailyTask` itself (src/server.js:519), so its `force` is whatever argument node-cron passes to the callback; a truthy one would make every scheduled run forced and ignore SKIP and DONE. The node-cron version is not fixed by these files, so the runs the listener fires are not modelled.
- The Firebase setup (`initFirebase`, credentials) is left out. The automation's `db` is either absent or the server's own store.
- Clocks are inputs, and one `now` timestamp stands for every write of a run. `today` is the ISO date the source derives from `new Date()`.
- `toLowerCase` folds ASCII letters only. No Unicode case folding is modelled.
- `JSON.stringify` is not modelled. `ExtractTokens` starts from the serialised text.
- The duplicated orphan fragment at src/automate-login.js:1789-2356 is left out. It is unreachable text between two `wait` definitions, and the second definition wins.
- Several page closures use `SELECTORS` without receiving it: src/automate-login.js:816-826, 940-960 and 1034-1051, as well as the dropdown poll and the modal submit. Read as written, each of them throws a `ReferenceError` in the page whenever it is reached, so the sign-in could never succeed. The model takes each closure's predicate as evidently intended and does not model that browser-side error.
- Automation.LocationText: a stored `workLocation` that is not a string is matched as "". The source would call string methods on it.
- Automation.GreytHRAutomation.SwipeIn: a failed sign-in is written as FAILED there, and then again by `run`'s catch with the plain message. Only the final record is stated, in `Run`.
- Automation.GreytHRAutomation.Run: it does not state the records written for standalone runs, or for failures before the cutover. Those writes follow `After` through `UpdateStatus`, but `Run` states only the recorded-failure property.
- Server.DailyTask: the result of a forced run states only its message, `forced` flag and truthy status, not the exact final status read back.
- The `/seed` handler is modelled through its parts: its token sources (`SeedTokens`, checked by `Authorized`) and `SeedDefaultConfig`. It has no handler method of its own.

## Findings

| source | as written | input that shows it | evidently intended | confidence | as-written member | corrected member |
|---|---|---|---|---|---|---|
| src/automate-login.js:2396-2409 | `run`'s catch writes FAILED for every error, including the "Task already completed for today" error that `init` throws in server mode when `checkStatus` finds a settled day | a PENDING "before initial day" record stored for a date on or after the cutover: `dailyTask` does not stop on PENDING, so `run` starts, stops early and records FAILED; also a DONE record when a second `/trigger` (or the cron job and a `/trigger`) starts `run` before the first one returns | the early stop ends the run without touching the record, so a completed day stays DONE | not executed | Automation.GreytHRAutomation.Run, Automation.GreytHRAutomation.SettledDayMarkedFailed, Server.DailyTask | Automation.GreytHRAutomation.RunFixed |
