# Cbook front end: a verified model of its logic

Cbook's web front end is a Next.js/React application for planning and studying for
certification exams. Most of it is layout. This project models the five places where it
makes decisions, in Dafny, and proves what those places promise:

- **The authenticated request client** (`src/hooks/useApi.ts`, module `ApiClient`).
  - `apiCall` sends a request with the stored bearer token. On a non-ok answer it
    exchanges the refresh token once and retries once; when the exchange itself is
    refused it logs out. Every outcome becomes a `{data, error, isLoading}` envelope.
  - Browser storage is a map and `fetch` a scripted server. `logout` is a counter.
  - `ApiClient.Call` is the call as a function of that world. `ApiClient.Client.ApiCall`
    performs it in place and is proved equal to it.
- **The study timer** (`src/components/StudyTimer.tsx`, module `StudyTimer`). It is a
  countdown whose length is edited as hours, minutes and seconds, plus a stopwatch.
  - Every handler is a function on the component's `State`. The class `TimerComponent`
    updates the same fields in place.
  - The one-second interval and the animation frames are explicit events.
  - The `HH:MM:SS` and `MM:SS.cc` formatting is pure.
- **Plan messages** (`src/components/message.tsx`, module `PlanMessage`). A chat message
  flagged as a plan is searched for `<시작>date<분할>place<분할>tasks<끝>` with lazy
  groups, and its task list is formatted one line per task.
  - The regular expression's meaning is stated on its own: `MatchAt` says where it
    matches, and `Precedes` how JavaScript chooses among matches.
  - The search is proved to return exactly the match JavaScript reports.
- **The registration wizard** (`src/app/register/page.tsx` and the step components,
  module `Register`). Six steps run over one record of answers.
  - `Transition` is what a user action does; a hidden or disabled control does
    nothing. The class `RegisterPage` holds `step` and `formData`.
- **The chat page** (`src/app/chat/page.tsx`, module `Chat`). It holds a list of
  messages; sending appends one with id `length + 1`.

`JsText` models the JavaScript built-ins these rely on:
- `toString` of a number,
- `Number.parseInt`,
- `padStart`,
- `trim`,
- `split`/`join` on one character.

`Wrappers` holds `Option`.

Two facts about the request client, as the code has them:
- Concurrent calls do not share a refresh. Each `apiCall` exchanges the refresh token
  on its own (`src/hooks/useApi.ts:68`).
- The envelope has no HTTP status field (`src/hooks/useApi.ts:4-8`).

## Model

| member | source | states |
|---|---|---|
| JsText.NatToString | src/components/StudyTimer.tsx:101 | `n.toString()` is a non-empty string of decimal digits with no leading zero; it has one digit iff n < 10 and at most two iff n < 100 |
| JsText.DecimalRoundTrip | src/components/StudyTimer.tsx:101 | the digits of `n.toString()` denote n |
| JsText.IntToString | src/hooks/useApi.ts:33 | `String(i)` of an integer is non-empty and starts with `-` exactly when i is negative |
| JsText.IntRoundTrip | src/hooks/useApi.ts:33 | `Number.parseInt` of the decimal rendering of any integer gives it back |
| JsText.NegativeDigits | src/components/StudyTimer.tsx:124 | `-` followed by decimal digits parses to the negated value of the digits |
| JsText.SkipSpace | src/components/survey-steps/exam-step.tsx:32 | the first index at or after i that is not whitespace: everything skipped is whitespace and the character there is not |
| JsText.SpaceBefore | src/components/survey-steps/exam-step.tsx:32 | the end of a range once its trailing whitespace is dropped: everything dropped is whitespace and the character before the end is not |
| JsText.Trim | src/components/survey-steps/exam-step.tsx:32 | `s.trim()` is no longer than s and neither starts nor ends with whitespace |
| JsText.TrimKeepsTheMiddle | src/components/survey-steps/exam-step.tsx:32 | `s.trim()` is a slice of s that neither starts nor ends with whitespace, and everything outside it is whitespace |
| JsText.TrimEmptyIffBlank | src/components/survey-steps/exam-step.tsx:32 | `s.trim()` is empty iff every character of s is ECMAScript whitespace |
| JsText.DigitsEnd | src/components/StudyTimer.tsx:124 | the end of the longest run of digits of the base from i: all digits, and the next character is not one |
| JsText.DigitsToTheEnd | src/components/StudyTimer.tsx:124 | digits reaching the end of the string are read in full, as the number they denote |
| JsText.ParseInt | src/components/StudyTimer.tsx:124 | `Number.parseInt` succeeds only when a decimal digit follows the leading whitespace and optional sign, and is negative only after a `-` |
| JsText.ParseIntOrZero | src/components/StudyTimer.tsx:124 | `Number.parseInt` with 0 as the fallback: 0 when parsing fails, the parsed integer otherwise; a non-empty digit string gives the number it denotes, and text without any digit gives 0 |
| JsText.ParseIntOfDecimal | src/components/StudyTimer.tsx:124 | parsing the decimal rendering of n gives back n |
| JsText.ParseIntOfDigits | src/components/StudyTimer.tsx:124 | a non-empty string of decimal digits parses to the number it denotes |
| JsText.DigitsRunToTheEnd | src/components/StudyTimer.tsx:124 | a run of digits that reaches the end of the string ends there |
| JsText.ParseIntNoDigits | src/components/StudyTimer.tsx:124 | text containing no decimal digit does not parse |
| JsText.PadStart | src/components/StudyTimer.tsx:101 | `s.padStart(width, fill)` is as long as s or `width`, whichever is longer, ends with s, and is `fill` before it |
| JsText.Split | src/components/message.tsx:23 | `s.split(c)` has at least one piece and no piece contains c |
| JsText.SplitCount | src/components/message.tsx:23 | `s.split(c)` has one piece more than s has occurrences of c |
| JsText.JoinSplit | src/components/message.tsx:23-26 | joining the pieces of `s.split(c)` with c gives back s |
| JsText.SplitWithoutSeparator | src/components/message.tsx:24 | a string without c splits into itself alone |
| JsText.JoinEndsWithLast | src/components/message.tsx:26 | a join ends with its last part, with no trailing separator |
| JsText.Join | src/components/message.tsx:26 | `parts.join(sep)` begins with the first part |
| JsText.SplitPiecesFromString | src/components/message.tsx:23-24 | every character of every piece comes from the split string |
| JsText.SplitJoin | src/components/message.tsx:26 | splitting a join on the separator gives back the parts when no part contains it |
| JsText.SplitAfterPiece | src/components/message.tsx:23 | a piece followed by the separator splits off as the first piece |
| ApiClient.Truthy | src/hooks/useApi.ts:16 | JavaScript truthiness: exactly `undefined`, `null`, `false`, `0` and `""` are falsy |
| ApiClient.JsonString | src/hooks/useApi.ts:33 | `String(v)` as `setItem` stores it: a string is stored as it is, and a number as digits that parse back to it |
| ApiClient.GetItem | src/hooks/useApi.ts:15 | `localStorage.getItem(key)` is `null` exactly when nothing is stored under the key, and otherwise a string, the one stored |
| ApiClient.HasRefreshToken | src/hooks/useApi.ts:15-16 | the refresh goes ahead exactly when `getItem('refreshToken')` is truthy |
| ApiClient.AccessOf | src/hooks/useApi.ts:32-34 | `data.access` throws a TypeError exactly for a `null` body; it is defined exactly for an object with an `access` member, and is that member |
| ApiClient.TargetRequest | src/hooks/useApi.ts:47-54 | the caller's URL and method, JSON content type; no header for `undefined`, `null` or an empty token, `Bearer ` + token for a non-empty one; no body for `null`, the caller's body for an object or array, and never any other body |
| ApiClient.RefreshRequest | src/hooks/useApi.ts:20-26 | a POST to the refresh endpoint with JSON content type, no bearer header, and the body `{refresh: <refresh token>}` with no other field |
| ApiClient.AuthHeader | src/hooks/useApi.ts:51 | no header for `null` or `undefined`; for a stored string s the header exists iff s is non-empty, and it is `Bearer ` + s |
| ApiClient.Fetch | src/hooks/useApi.ts:47-54 | one fetch records the request and consumes exactly the next scripted reply |
| ApiClient.Answer | src/hooks/useApi.ts:56-60 | `makeRequest` yields a value iff the answer is 2xx with a parsable body; a non-ok answer throws 'API request failed' |
| ApiClient.Attempt | src/hooks/useApi.ts:46-61 | one request to the target with the token's header, one reply consumed, storage and logouts untouched |
| ApiClient.Refresh | src/hooks/useApi.ts:14-35 | no refresh token: throws 'No refresh token available' with no request; otherwise one POST of the refresh token; non-ok throws 'Failed to refresh token'; storage changes only on success, and then only `accessToken`; never logs out |
| ApiClient.Resolve | src/hooks/useApi.ts:73-83 | `isLoading` is false; the error is absent iff the step returned, and then the data is its value; on an error the data is null; an Error gives its message, a non-Error 'An unknown error occurred'; logout is counted iff the message is 'Failed to refresh token' |
| ApiClient.Call | src/hooks/useApi.ts:37-84 | 1 to 3 requests, replies consumed in order; the first goes to the target with the stored token; a second is made only after the first threw 'API request failed' with a refresh token stored, and is the exchange of that token; with two requests storage is unchanged; with three the exchange yielded a token, the retry presents it and only `accessToken` is rewritten, to it; on an error the data is null; logout iff 'Failed to refresh token' |
| ApiClient.FirstSuccessShortCircuits | src/hooks/useApi.ts:56-64 | a 2xx parsable first answer resolves with its body after exactly one request, with no refresh, no storage write and no logout |
| ApiClient.FirstRequestHeaders | src/hooks/useApi.ts:44-53 | the first request carries `Bearer <stored token>` iff a non-empty token is stored; an object or array body is sent, a `null` body is not |
| ApiClient.RefreshThenRetry | src/hooks/useApi.ts:65-69 | non-ok, then a successful exchange: exactly target, exchange and target again with the new token; the new token is stored, `refreshToken` untouched; the retry's answer is final |
| ApiClient.SecondFailureIsFinal | src/hooks/useApi.ts:56-70 | a non-ok retry ends with 'API request failed' after three requests, with no second refresh and no logout |
| ApiClient.RetryUsesStoredToken | src/hooks/useApi.ts:68-69 | when the returned `access` is truthy, the retry presents exactly the token just stored (a falsy `access` is stored as its string form and the retry sends no header) |
| ApiClient.RefreshWithoutAccessMember | src/hooks/useApi.ts:32-34 | an exchange body without `access` stores "undefined": the retry has no header, and the next call sends `Bearer undefined` |
| ApiClient.MissingRefreshToken | src/hooks/useApi.ts:15-18 | no refresh token: the call ends after one request with 'No refresh token available', with no write and no logout |
| ApiClient.RefreshRejected | src/hooks/useApi.ts:28-30 | a refused exchange: two requests, tokens unchanged, no retry, one logout, error 'Failed to refresh token' |
| ApiClient.OtherFailuresNotRetried | src/hooks/useApi.ts:66-71 | a rejected fetch or unparsable body is not retried; the error is its message, or 'An unknown error occurred' for a non-Error |
| ApiClient.FailedExchangeNotRetried | src/hooks/useApi.ts:20-35 | an exchange whose fetch rejects, whose body does not parse or whose body is `null` ends the call after two requests, storage and logouts unchanged, with the thrown message or 'An unknown error occurred' |
| ApiClient.ForeignMessageTriggersRefresh | src/hooks/useApi.ts:66-68 | any Error whose message is 'API request failed' leads to the refresh path, whoever threw it |
| ApiClient.LogoutOnlyOnRejectedRefresh | src/hooks/useApi.ts:74-77 | logout is called iff the first answer is non-ok, a refresh token is stored and the exchange is answered non-ok, unless a transport failure reuses one of the client's messages |
| ApiClient.ExpiredTokenScenario | src/hooks/useApi.ts:63-70 | for any non-empty tokens A1, R1, A2: a 401, then an exchange yielding A2, then data: the call ends with the data, storage `{accessToken: A2, refreshToken: R1}`, no logout, and requests presenting A1, exchanging R1, presenting A2 |
| ApiClient.Server.constructor | src/hooks/useApi.ts:47 | the backend starts with its script and no requests received |
| ApiClient.Server.Fetch | src/hooks/useApi.ts:47-54 | answers with the next reply and records the request |
| ApiClient.Client.constructor | src/hooks/useApi.ts:10-12 | storage as given, not loading, no logouts |
| ApiClient.Client.Logout | src/hooks/useApi.ts:76 | one more logout, nothing else changes |
| ApiClient.Client.MakeRequest | src/hooks/useApi.ts:46-61 | performs `Attempt` on the backend |
| ApiClient.Client.RefreshAccessToken | src/hooks/useApi.ts:14-35 | performs `Refresh` on storage and backend, `isLoading` untouched |
| ApiClient.Client.Settle | src/hooks/useApi.ts:73-80 | performs `Resolve`: the envelope and the logout of the outer `catch` |
| ApiClient.Client.ApiCall | src/hooks/useApi.ts:37-84 | performs `Call` on storage, backend and logout count, and leaves `isLoading` false on every path |
| StudyTimer.Initial | src/components/StudyTimer.tsx:20-34 | the first render is valid, with a time left equal to the set total (40 minutes) |
| StudyTimer.TotalOfValidFields | src/components/StudyTimer.tsx:127-133 | clamped fields total at most 99:59:59 |
| StudyTimer.Clamp | src/components/StudyTimer.tsx:127 | `Math.min(limit, Math.max(0, n))` lies in 0..limit, and keeps n when n is in range |
| StudyTimer.InputValue | src/components/StudyTimer.tsx:124-133 | the stored value lies in the field's range: 0 for unparsable input, the number itself when it is in range |
| StudyTimer.InputOfDecimal | src/components/StudyTimer.tsx:124-133 | a number in range typed in decimal is stored as it is |
| StudyTimer.InputWithoutDigits | src/components/StudyTimer.tsx:124 | input with no digit stores 0 |
| StudyTimer.Tick | src/components/StudyTimer.tsx:42-51 | the time left never increases; above 1 it decrements and nothing else changes; at 1 it becomes 0, stops the timer and raises the alert, and nothing else changes; without the interval nothing changes |
| StudyTimer.Blur | src/components/StudyTimer.tsx:185 | leaving an input ends editing and changes nothing else |
| StudyTimer.DismissAlert | src/components/StudyTimer.tsx:257 | confirming the alert closes it and changes nothing else |
| StudyTimer.Reset | src/components/StudyTimer.tsx:84-95 | both running flags cleared; timer mode sets time left and initial time to the fields' total; stopwatch mode zeroes the elapsed time; the mode, fields, editing and alert are unchanged |
| StudyTimer.Toggle | src/components/StudyTimer.tsx:73-82 | flips the current mode's running flag and changes nothing else; a stopped countdown at 0 instead restarts from the fields' total, with the stopwatch stopped |
| StudyTimer.SwitchMode | src/components/StudyTimer.tsx:153-172 | the chosen mode is set and both running flags are cleared; the mode being left is reset (countdown to the fields' total, or the stopwatch to 0); fields, editing and alert are unchanged |
| StudyTimer.TimeClick | src/components/StudyTimer.tsx:117-121 | editing starts only while stopped in timer mode; nothing else changes |
| StudyTimer.TimeInput | src/components/StudyTimer.tsx:123-140 | the clamped value goes into its field only; editing ends; time left and initial time become the total of the fields from before the edit; the mode, flags, stopwatch and alert are unchanged |
| StudyTimer.TimeInputIntended | src/components/StudyTimer.tsx:137-139 | corrected edit: the time left equals the total of the fields after the edit |
| StudyTimer.Frame | src/components/StudyTimer.tsx:57-63 | a running stopwatch's elapsed time grows by the time passed; nothing changes otherwise |
| StudyTimer.StepPreservesValid | src/components/StudyTimer.tsx:123-139 | every handler keeps the fields in range and the time left within the initial time, at most 99:59:59 |
| StudyTimer.RunPreservesValid | src/components/StudyTimer.tsx:42-140 | any sequence of events keeps the state valid |
| StudyTimer.ReachableStatesAreValid | src/components/StudyTimer.tsx:20-34 | every state reachable from the first render is valid |
| StudyTimer.CountdownReachesZero | src/components/StudyTimer.tsx:42-51 | t seconds left: after k < t ticks t - k are left and it still runs; after t ticks it stops at 0 with the alert; the set fields are untouched |
| StudyTimer.StoppedCountdownStaysPut | src/components/StudyTimer.tsx:42 | without the interval, ticks change nothing |
| StudyTimer.ToggleTwice | src/components/StudyTimer.tsx:73-82 | start/pause twice is the identity, except when it restarts a finished countdown |
| StudyTimer.StartAfterFinish | src/components/StudyTimer.tsx:75-78 | start on a finished countdown runs again from the fields' total |
| StudyTimer.ResetIdempotent | src/components/StudyTimer.tsx:84-95 | resetting twice equals resetting once |
| StudyTimer.SelectModeResetsModeLeft | src/components/StudyTimer.tsx:155-168 | a mode button resets the mode being left: leaving the stopwatch zeroes it and keeps the countdown; leaving the timer restarts the countdown and keeps the stopwatch |
| StudyTimer.EditingStartsOnlyWhenStopped | src/components/StudyTimer.tsx:117-121 | only a field click, while stopped in timer mode, starts editing |
| StudyTimer.FramesAddUp | src/components/StudyTimer.tsx:58-60 | two frames equal one frame of their combined delay |
| StudyTimer.TimeInputUsesPreviousFields | src/components/StudyTimer.tsx:137-139 | typing 30 into the minutes of the first render stores 30 but leaves 2400 seconds, not the fields' total |
| StudyTimer.Pad2 | src/components/StudyTimer.tsx:101 | `n.toString().padStart(2, "0")` has at least two characters (exactly two below 100) and is the digits of n preceded by zeros |
| StudyTimer.Pad2Length | src/components/StudyTimer.tsx:101 | below 100 the padded field has two characters |
| StudyTimer.Pad2Digits | src/components/StudyTimer.tsx:101 | below 100 the padded field is the tens digit then the units digit |
| StudyTimer.Pad2Injective | src/components/StudyTimer.tsx:101 | distinct values below 100 pad differently |
| StudyTimer.ClockOf | src/components/StudyTimer.tsx:98-100 | h*3600 + m*60 + s equals the time, with m, s < 60 |
| StudyTimer.ClockOfTotal | src/components/StudyTimer.tsx:98-100 | splitting the total of hours, minutes below 60 and seconds below 60 gives back those fields |
| StudyTimer.FormatTimerDisplay | src/components/StudyTimer.tsx:97-102 | `formatTimerDisplay()` has at least 8 characters, colons before its last two fields, and ends with the padded seconds |
| StudyTimer.TimerDisplayExact | src/components/StudyTimer.tsx:97-102 | up to 99:59:59 the display is exactly `HH:MM:SS`, each field its two digits |
| StudyTimer.TimerDisplayInjective | src/components/StudyTimer.tsx:97-102 | distinct times up to 99:59:59 display differently |
| StudyTimer.TimerFace | src/components/StudyTimer.tsx:176-231 | the timer face while no field is being edited, three padded fields joined by colons, is `formatTimerDisplay` of the fields' total |
| StudyTimer.TimerFaceIgnoresCountdown | src/components/StudyTimer.tsx:176-231 | as written, a tick leaves the timer face unchanged while `formatTimerDisplay` of the time left changes |
| StudyTimer.Centiseconds | src/components/StudyTimer.tsx:109 | the centisecond field lies in 0..99 and is the hundreds of the milliseconds within the second |
| StudyTimer.StopwatchText | src/components/StudyTimer.tsx:111-114 | hour field shown iff hours > 0; without it exactly `MM:SS.cc`; always ending `.cc` |
| StudyTimer.FormatStopwatchDisplay | src/components/StudyTimer.tsx:104-114 | the hour field appears iff at least 3600 whole seconds have elapsed; the display always ends with `.` and the centiseconds |
| StudyTimer.StopwatchFromAnHour | src/components/StudyTimer.tsx:104-112 | from an hour on the display is `HH:MM:SS.cc`, each field at a fixed offset from the end, and the hours, minutes and seconds make up the elapsed whole seconds |
| StudyTimer.StopwatchUnderAnHour | src/components/StudyTimer.tsx:104-114 | below an hour the display is `MM:SS.cc`, whose minutes and seconds make up the elapsed whole seconds |
| StudyTimer.TimerComponent.constructor | src/components/StudyTimer.tsx:20-34 | the fields start as the first render |
| StudyTimer.TimerComponent.OnSecond | src/components/StudyTimer.tsx:43-51 | performs `Tick` |
| StudyTimer.TimerComponent.ResetTimer | src/components/StudyTimer.tsx:84-95 | performs `Reset` |
| StudyTimer.TimerComponent.ToggleTimer | src/components/StudyTimer.tsx:73-82 | performs `Toggle` |
| StudyTimer.TimerComponent.SelectMode | src/components/StudyTimer.tsx:153-172 | performs `SwitchMode` |
| StudyTimer.TimerComponent.HandleTimeClick | src/components/StudyTimer.tsx:117-121 | performs `TimeClick` |
| StudyTimer.TimerComponent.HandleTimeInput | src/components/StudyTimer.tsx:123-140 | performs `TimeInput` |
| StudyTimer.TimerComponent.HandleBlur | src/components/StudyTimer.tsx:185 | editing ends |
| StudyTimer.TimerComponent.ConfirmAlert | src/components/StudyTimer.tsx:257 | the alert closes |
| StudyTimer.TimerComponent.OnFrame | src/components/StudyTimer.tsx:57-63 | performs `Frame` |
| PlanMessage.IndexOf | src/components/message.tsx:20 | -1, or a position at or after the start where the pattern occurs inside the string |
| PlanMessage.IndexOfIsFirst | src/components/message.tsx:20 | the position found is the first occurrence at or after the start; -1 means there is none |
| PlanMessage.IndexOfFinds | src/components/message.tsx:20 | an occurrence at q guarantees the search finds one at or before q |
| PlanMessage.OccursAtIsSlice | src/components/message.tsx:20 | the pattern occurs at i iff the slice of s at i of its length equals it |
| PlanMessage.OccursConcat | src/components/message.tsx:20 | `a + b` occurs at p iff a occurs at p and b right after it |
| PlanMessage.MatchAtIsOccurrence | src/components/message.tsx:20 | the pattern matches with these groups at p iff `<시작>` date `<분할>` place `<분할>` tasks `<끝>` occurs at p |
| PlanMessage.OccursInSlice | src/components/message.tsx:20 | an occurrence inside a slice is an occurrence in the whole string, shifted by the slice's start |
| PlanMessage.GroupBeforeFirstOccurrence | src/components/message.tsx:20 | a range holding no occurrence gives a slice in which the pattern occurs nowhere |
| PlanMessage.FindDelimiters | src/components/message.tsx:20 | the four delimiters, each the first one after the previous, in order and inside the string |
| PlanMessage.DelimitersNoLater | src/components/message.tsx:20 | four delimiters in order anywhere mean the search finds four, each no later than the given one |
| PlanMessage.Match | src/components/message.tsx:20 | a reported match is a match of the regular expression |
| PlanMessage.NoneBeforeFound | src/components/message.tsx:20 | the text between the start and the position found contains no occurrence |
| PlanMessage.MatchIsLeftmostLazy | src/components/message.tsx:20 | whenever the pattern matches, the search finds a match, and it is the leftmost one with the shortest date, then place, then tasks |
| PlanMessage.NoMatchIffNoOccurrence | src/components/message.tsx:20-21 | no match is reported iff the pattern matches nowhere |
| PlanMessage.LazyGroupsStopAtFirstDelimiter | src/components/message.tsx:20-22 | date and place contain no `<분할>` and the tasks no `<끝>` |
| PlanMessage.TaskLine | src/components/message.tsx:24-25 | a task without a comma renders as `<task>: undefined` |
| PlanMessage.TaskList | src/components/message.tsx:23-26 | a single task (no bar) renders as its own line |
| PlanMessage.TaskLines | src/components/message.tsx:23-25 | one line per task between bar separators (one more line than bars), each the formatted task |
| PlanMessage.TakeUntil | src/components/message.tsx:24 | the longest prefix without the character, followed by it or by the end |
| PlanMessage.SplitHead | src/components/message.tsx:24 | the first piece of a split is the text before the first separator; the rest are the pieces of what follows |
| PlanMessage.TaskLineWithComma | src/components/message.tsx:24-25 | a task with a comma renders as the text before it, `: `, and the text up to the next comma or the end |
| PlanMessage.TaskListEndsWithLastLine | src/components/message.tsx:26 | the task list ends with the last line, with no trailing newline |
| PlanMessage.TaskListLines | src/components/message.tsx:23-26 | with no newline in the tasks, splitting the list on newlines gives exactly the task lines |
| PlanMessage.RenderContent | src/components/message.tsx:14-38 | children win; a non-plan message is its content verbatim; a plan view only for a plan message without children |
| PlanMessage.UnmatchedPlanIsText | src/components/message.tsx:19-38 | a plan message the pattern matches nowhere is shown verbatim |
| PlanMessage.MatchedPlanIsPlanView | src/components/message.tsx:19-35 | a matching plan message shows the date and place of JavaScript's match and the task list of its tasks |
| PlanMessage.Message | src/components/message.tsx:14-69 | children are shown as they are; a non-plan message, or a plan the pattern matches nowhere, shows its content verbatim; a matching plan shows the date, place and task list of the leftmost, laziest match; the preview button is shown iff `plan` |
| Register.InitialPage | src/app/register/page.tsx:14-25 | step 1, every answer empty, and the page satisfies the reachability invariant |
| Register.WithField | src/app/register/page.tsx:27-29 | the field takes the value; every other field and the education are unchanged |
| Register.WithSchool | src/app/register/page.tsx:92-97 | the school takes the value; status and every top-level field are unchanged |
| Register.WithStatus | src/app/register/page.tsx:98-103 | the status takes the value; school and every top-level field are unchanged |
| Register.WithFieldLastWriteWins | src/app/register/page.tsx:28 | the second write to a field wins |
| Register.WithFieldCommutes | src/app/register/page.tsx:28 | writes to different fields commute |
| Register.ExamNextEnabled | src/components/survey-steps/exam-step.tsx:32 | the exam step's "next" is enabled iff the exam name holds a character that is not whitespace |
| Register.Transition | src/app/register/page.tsx:48-106 | the step stays or grows by one, and grows only from steps 1 to 5; finish changes nothing |
| Register.Submission | src/components/survey-steps/education-step.tsx:66-70 | the form is logged iff finish is pressed on step 6 with school and status chosen; from a reachable page the logged form has a non-blank exam, a male/female gender, and school and status chosen |
| Register.TransitionKeepsReachable | src/app/register/page.tsx:48-106 | every action keeps the step within 1..6, the gender answer matching the step, and the exam name non-blank from step 5 on |
| Register.RunKeepsReachable | src/app/register/page.tsx:48-106 | any sequence of actions keeps the invariant |
| Register.ReachableFromStart | src/app/register/page.tsx:14-25 | every page reachable from the first render satisfies the invariant |
| Register.WhoWritesWhat | src/app/register/page.tsx:64-86 | only the exam step writes `exam`; only steps 3 (yes/no) and 5 (gender) write `gender` |
| Register.SixStepsToTheEnd | src/app/register/page.tsx:48-86 | sign-up, welcome, an answer, a non-blank exam name and a gender answer lead to step 6 |
| Register.BlankExamBlocksNext | src/components/survey-steps/exam-step.tsx:32 | with a blank exam name "next" does nothing on step 4 |
| Register.RegisterPage.constructor | src/app/register/page.tsx:14-25 | the fields start as the first render |
| Register.RegisterPage.HandleSignupChange | src/app/register/page.tsx:27-29 | `formData` becomes `WithField` of the old one; the step is unchanged |
| Register.RegisterPage.HandleNext | src/app/register/page.tsx:31-33 | the step grows by exactly one; the answers are unchanged |
| Register.RegisterPage.HandleFinish | src/app/register/page.tsx:35-38 | logs the form and changes nothing |
| Register.RegisterPage.SetSchool | src/app/register/page.tsx:92-97 | `formData` becomes `WithSchool` of the old one |
| Register.RegisterPage.SetStatus | src/app/register/page.tsx:98-103 | `formData` becomes `WithStatus` of the old one |
| Register.RegisterPage.Dispatch | src/app/register/page.tsx:48-106 | performs `Transition` and returns the logged form of `Submission` |
| Chat.InitialMessages | src/app/chat/page.tsx:7-12 | four messages with ids 1..4, alternating user and bot, named "나" and "팩폭이" |
| Chat.Send | src/app/chat/page.tsx:17-22 | one message appended with id length + 1, from the user "나", with the content verbatim; earlier messages kept; ids stay positions |
| Chat.PositionIdsAreUnique | src/app/chat/page.tsx:44-47 | ids equal to positions are pairwise distinct keys |
| Chat.SendAllAppends | src/app/chat/page.tsx:17-22 | any sequence of sends keeps the earlier messages, appends one user message per content in order, and keeps ids equal to positions |
| Chat.KeysStayUnique | src/app/chat/page.tsx:44-47 | from the initial list, keys stay unique whatever is sent |
| Chat.Render | src/app/chat/page.tsx:44-51 | each entry renders as its content verbatim with no plan button; the avatar says "나" for the user and "AI" otherwise |
| Chat.ChatPage.constructor | src/app/chat/page.tsx:15 | the list starts as the initial messages |
| Chat.ChatPage.HandleSendMessage | src/app/chat/page.tsx:17-22 | performs `Send` |

## Left out

- Real `fetch`, `localStorage`, the React hook plumbing and `useAuth` are not modelled. The scripted server, the storage map and the logout counter stand in for them.
- ApiClient.Call: requires at least three scripted replies, the most one call can consume. This bounds the script, not the inputs the source accepts.
- ApiClient.Json: JSON numbers are integers. Fractional numbers and their string forms are not modelled.
- ApiClient.NullAccessMessage: the TypeError's message is V8's wording; other engines word it differently.
- ApiClient.LogoutOnlyOnRejectedRefresh: assumes no transport failure carries the client's own messages. Such a failure also triggers refresh or logout; `ForeignMessageTriggersRefresh` shows one case.
- Concurrent calls share storage and `isLoading`; their interleavings are not modelled. Each call is modelled alone, from the storage it finds.
- ApiClient.Call: the method and body are always passed. The defaults of `apiCall` (`'GET'` and `null`, `src/hooks/useApi.ts:39-40`) are not modelled.
- ApiClient.Call: `body` ranges over every JSON value, while the TypeScript signature admits only objects and `null`. For those two the model sends what the code sends; `null` is `JNull`, as it is in the envelope's `data`.
- Timing in the study timer: `setInterval`, `requestAnimationFrame` and `Date.now` become explicit second and frame events.
- `calculateProgress` and the registration progress bar `step * 100 / 6` use floating point. They are not modelled.
- `src/utils/date.ts` depends on JavaScript `Date` parsing and locale formatting. It is not part of this model.
- Network-only code is not modelled: the profile page fetch and the login form submit.
- Pure rendering is not modelled: layout, dashboard, time picker, study-plan components and the step components' markup. Only the step components' enablement rules and fixed answers are modelled.
- The sign-up step component is not part of this model. Its "next" is taken as unguarded, and its inputs are taken to set only username, password and password confirmation.
- Register.HandleSignupChange: the field is one of the five top-level text fields. An arbitrary key would add a property or replace `education` in JavaScript, and that is not modelled.
- Register.RegisterPage.HandleFinish: the `console.log` is modelled as returning the logged form.
- PlanMessage.RenderContent: `children` is an `Option`. A present but falsy child, such as `0` or `""`, would fall through to the content in JavaScript; the model does not capture that.
- Chat.Render: the page passes no `plan` prop, so `plan` is `undefined`. It is modelled as `false`.
- Strings are sequences of Unicode characters, not UTF-16 code units. All literals in the core lie in the Basic Multilingual Plane, where the two agree.
- JsText.NatToString: renders every number in plain decimal digits. JavaScript switches to exponent form from 1e21; the timer's numbers stay far below that.
- JsText.IntToString: plain decimal digits as well, for the same reason. A numeric access token of 1e21 or more would be stored in exponent form.
- JsText.ParseIntOrZero: parsing is exact for any length of digits. JavaScript rounds results beyond 2^53, and the clamp makes that irrelevant here.
- StudyTimer.TimerFace: models the face while no field is being edited. The field being edited is an `<input>` showing the raw number; that markup is not modelled.
- The timer's input `value` is modelled as an arbitrary string. The browser's number input would restrict what it passes.

## Findings

| source | as written | input that shows it | evidently intended | confidence | as-written member | corrected member |
|---|---|---|---|---|---|---|
| src/components/StudyTimer.tsx:176-231 | timer mode shows the hours, minutes and seconds fields; `formatTimerDisplay` (lines 97-102) is never used | start the 40-minute countdown and let one second pass: the time left is 2399 but the face still reads `00:40:00` | the face shows `formatTimerDisplay()` of the time left, which changes every second | high; not executed | StudyTimer.TimerFaceIgnoresCountdown | StudyTimer.TimerDisplayInjective |
| src/components/StudyTimer.tsx:137-139 | the new countdown length is the total of the fields read before the edit | type 30 into the minutes of the first render: minutes become 30 but 2400 seconds remain to count down | the total includes the value just entered | high; not executed | StudyTimer.TimeInputUsesPreviousFields | StudyTimer.TimeInputIntended |

The component classes follow the code as written. The corrected definitions are stated
and proved beside them: `FormatTimerDisplay`, with `TimerDisplayExact` and
`TimerDisplayInjective`, and `TimeInputIntended`.
