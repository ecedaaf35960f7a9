# Verified models of YourBrand

A Dafny model of the parts of the application in which order, rounding or interruption decide whether the
result is right, with proofs about every run or every input.

| file | models |
|---|---|
| `TokenRefresh.dfy`, `RefreshSafety.dfy`, `SignOuts.dfy`, `ApiClient.dfy` | the shared token refresh of `frontend/lib/api.ts`: any number of concurrent requests, refreshes sent around the lock, and logging out, against a server with single-use refresh tokens |
| `SqlStatements.dfy`, `Migrations.dfy`, `TenantDatabase.dfy` | the migration runner of `backend/src/database/tenant-init.ts`, with runs that die after any query |
| `Templates.dfy` | placeholder filling in `frontend/lib/care.ts` and `frontend/lib/notification-resolver.ts` |
| `Money.dfy` | reading and printing of euro amounts in `frontend/lib/shop.ts`, with the rounding of doubles |
| `AxisTicks.dfy`, `TickIndexes.dfy`, `StackedColumns.dfy`, `Analytics.dfy` | the arithmetic of the analytics charts |
| `Shuffle.dfy`, `QuoteBag.dfy` | the shuffled bag of quotes of `HiddenEntryOverlay.tsx` |
| `Raygun.dfy` | the timer chain of `RaygunButton.tsx` |
| `MediaSource.dfy` | who revokes which blob URL in `useAuthedMediaSrc.ts` |
| `Runs.dfy` | runs and reachable states of any state machine given by its step function |
| `Text.dfy`, `JsMath.dfy`, `Options.dfy`, `Sums.dfy`, `Sequences.dfy` | JavaScript's string and number operations, and shared helpers |

Code that changes state step by step appears twice: as functions on values, on which the theorems are stated,
and as a class or a method with loops whose contract ties the object, before and after, to those functions.
Concurrent code is a state machine whose step is one run of JavaScript between two `await`s, one action of the
server, or one timer callback; a theorem about a run holds for every order of such steps.

The classes `Client`, `Button` and `AuthedMediaSrc` are valid in reachable states only and every step keeps
them so; the theorems about reachable states are theorems about these objects (`OnePostAtATime`, `IsSound`,
`RevokesEachOnce`).

These promises of the code hold only under a condition. The code is modelled as it is, and the condition is
proved to be exact:

- The comment at `frontend/lib/api.ts:9-12` says only one refresh runs at a time. The onboarding page sends
  POST /auth/refresh around the lock. In runs without faults, a POST by either way keeps things safe exactly
  when no other POST is in flight as it is sent (`RefreshSafety.OverlapIsUnsafeExactly`), and a complete run is
  safe exactly when this was never otherwise (`RefreshSafety.SafeExactlyWithoutOverlap`). As nothing makes a
  request wait for the answer to the onboarding page's POST, that POST is safe exactly when none is in flight
  and no request is left that can get a first 401 (`RefreshSafety.DirectRefreshIsSafeExactly`).
- A retry reads the newest token (`frontend/lib/api.ts:66`), unless the answer to such a POST comes in late: its
  body spoils no retry exactly when no request is about to read the store for a newer refresh of the lock
  (`TokenRefresh.LateBodyExactly`).
- A sign-out (`frontend/lib/store/authStore.ts:47-53`) does not stop a refresh. Clearing the store lasts exactly
  when no POST is outstanding and no request is left that can get a first 401 (`RefreshSafety.SignOutLastsExactly`).
  Under the same condition, exactly, the POST /auth/logout that the buttons send before ends the session for good
  (`SignOuts.LogoutIsFinalExactly`); once it is answered only refreshes under way can still undo the sign-out
  (`SignOuts.AnsweredLogoutLastsExactly`).
- With the lock alone, a page that can still get the valid cookie survives every fault but exactly two: the answer
  to an accepted POST is lost, or the server fails in its handler and removes the cookie
  (`RefreshSafety.FaultIsSurvivedExactly`).
- `backend/src/database/tenant-init.ts:10-12` promises that an aborted run is continued by the next one. The
  baseline `backend/migrations/001_baseline.sql`, the first file of every list, breaks this: it is one statement,
  as it contains `$$`, and its plain `CREATE TYPE` and `CREATE TABLE` fail when they are run again. With files
  behind it that can be replayed, a history of aborted runs is made good exactly when none of them died between
  the baseline and its record; after one that did, every run fails (`Migrations.BaselineCrashesExactly`,
  `Migrations.StuckForever`). In general it is enough that each aborted run died at a point from which the file
  replays in that state (`Migrations.HistoryConverges`), which for the last file is also necessary
  (`Migrations.DyingThereIsSafeExactly`). For a file, any interruption is made good exactly if its statements can
  be replayed after any prefix of themselves (`Migrations.InterruptionIsSafeExactly`). All this is for statements
  that have their whole effect or none; a concurrent index build that fails half-way is outside it. It is
  enough that a file consists of blocks that can be replayed, such as a statement that can be repeated or a
  `DROP ... IF EXISTS` with the `ADD` behind it, and that none undoes an earlier one (`Migrations.BlocksReplay`,
  `Migrations.DropThenAddReplays`).
- What `centsToEuroInput` of `frontend/lib/shop.ts:106-108` prints is read back by `euroToCents` for all amounts
  below a bound exactly when the bound is at most 2^45 euros and two cents; that amount is read as one cent more
  (`Money.Binary64LimitExactly`). From the relative rounding error alone this follows exactly up to 2^51 cents
  (`Money.RelativeErrorLimitExactly`). Printing itself is right exactly up to 2^46 euros (`Money.PrintingLimitExactly`).
- `frontend/components/analytics/charts.tsx:32` promises 0 and two or three round steps up to the maximum. For
  positive maxima this holds exactly above 0.000001, except from 0.000006 to 0.0000075, where the ticks are
  multiples of 0.000003; the loop ends exactly above 0.00000075 (`AxisTicks.PromiseKeptExactly`,
  `AxisTicks.StopsExactly`).
- A column of the chart stays inside the plot exactly when the gap and half a pixel fit over the base of its last
  segment (`StackedColumns.StaysInsideExactly`).
- Filling a template in stages equals filling it at once exactly for templates in which no brace outside a
  placeholder can become part of one (`Templates.StagesAgreeExactly`).

## Model

| member | source | states |
|---|---|---|
| TokenRefresh.SingleFlight | frontend/lib/api.ts:13-34 | in every run, with any faults, the shared promise is set exactly while one POST of the lock is unsettled, and two never are |
| TokenRefresh.WaitersAgree | frontend/lib/api.ts:61-65 | all requests that joined one refresh resumed with its one result |
| TokenRefresh.FailedRefreshSignsOut | frontend/lib/api.ts:62-65 | a call whose refresh has failed leaves no access token behind, counts one sign-out, and ends; posts, cookie and lock stay |
| TokenRefresh.SuccessfulRefreshRetries | frontend/lib/api.ts:66-72 | a call whose refresh has succeeded fetches again with the token stored now, and signs nobody out |
| TokenRefresh.FirstAnswerExactly | frontend/lib/api.ts:60-61 | a first answer other than a 401 ends the request and touches no refresh; a 401 joins the running one or starts one with the cookie in the jar |
| TokenRefresh.StoreChangesExactly | frontend/lib/store/authStore.ts:41-53 | the access token changes with the bodies of answers, to their tokens, with sign-outs and failed refreshes, to none, and with nothing else |
| TokenRefresh.JarChangesExactly | backend/src/modules/core/auth/auth.controller.ts:63-85 | the cookie changes with the headers of answers to refreshes and with answered logouts, and with nothing else |
| TokenRefresh.ServerChangesExactly | backend/src/modules/core/auth/auth.controller.ts:63-85 | the session changes with refreshes that are sent and with revocations; a logout ends it exactly if it presents the valid token |
| TokenRefresh.AnswersExactly | backend/src/modules/core/auth/auth.controller.ts:63-76 | a refresh without a cookie is a 401 that leaves the jar alone; with the valid token of a live session it rotates; otherwise it is a 401 that empties the jar |
| TokenRefresh.LogoutEmptiesTheJar | frontend/app/(app)/profile/page.tsx:225-232 | logging out ends without an access token in any case, and without the cookie exactly if the POST was answered |
| TokenRefresh.RetryIsFresh | frontend/lib/api.ts:66-72 | as long as no answer around the lock comes in late, a retry carries a token at least as new as the refresh it waited for, or none when a sign-out came after that refresh |
| TokenRefresh.LateBodyExactly | frontend/app/(onboarding)/onboarding/page.tsx:530-531 | storing the token of an answer around the lock keeps every retry, now and later, as fresh as its refresh if and only if no request is about to read the store for a refresh that brought a newer token |
| RefreshSafety.LateBodySpoilsARetry | frontend/app/(onboarding)/onboarding/page.tsx:530-531 | a fault-free run, never with two POSTs in flight, whose retry carries an older token than the refresh it waited for brought |
| TokenRefresh.BoundedWork | frontend/lib/api.ts:48-80 | at most 7n + 9k steps for n requests and k refreshes around the lock; each request fetches at most twice and waits at most once; the lock sends no more POSTs than first answers with 401 |
| TokenRefresh.StepUsesWork | frontend/lib/api.ts:48-80 | a measure over all calls and posts falls with every step of the protocol and every fault, and only a new refresh around the lock raises it |
| TokenRefresh.QuiescentMeansDone | frontend/lib/api.ts:48-80 | no deadlock: when no step is possible every call is finished and the promise is cleared, whatever faults happened |
| TokenRefresh.StepKeepsInv | frontend/lib/api.ts:13-80 | every step keeps the invariant that ties lock, posts, cookie and calls together |
| RefreshSafety.NoRequestLogsOut | frontend/lib/api.ts:9-34 | with the lock alone, without faults and with a live session no interleaving of any number of requests shows the server a used-up token or brings a request to logout() |
| RefreshSafety.ExclusiveRunsAreSafe | frontend/lib/api.ts:9-34 | the same with any number of refreshes around the lock, if no POST is sent while another is in flight |
| RefreshSafety.OverlapIsUnsafeExactly | frontend/lib/api.ts:9-12 | sending a POST, by the lock or around it, keeps every such continuation safe if and only if no other POST is in flight at that moment |
| RefreshSafety.SafeExactlyWithoutOverlap | frontend/lib/api.ts:9-12 | a complete fault-free run of any number of requests and of refreshes around the lock shows the server no used-up token and logs nobody out if and only if no POST was ever sent while another was in flight |
| RefreshSafety.DirectRefreshIsSafeExactly | frontend/app/(onboarding)/onboarding/page.tsx:530-531 | a refresh sent around the lock leaves every fault-free continuation safe if and only if no POST is in flight and no request can still get a first 401, which would start a refresh with the used-up cookie before the answer is there |
| RefreshSafety.PostCarriesNewestCookie | frontend/lib/api.ts:19-22 | in a run without overlap every POST that has not reached the server carries the one valid token and will be accepted |
| RefreshSafety.CalmRunsFinish | frontend/lib/api.ts:48-80 | every run without faults and overlap that cannot go on has answered all n requests, none by a logout, and holds the valid cookie |
| RefreshSafety.TokenOutlivesNoSignOut | frontend/lib/store/authStore.ts:41-53 | in every run a stored token was issued by a refresh that ended after the last sign-out, or is the first one and nobody signed out |
| RefreshSafety.SignOutLastsExactly | frontend/lib/store/authStore.ts:47-53 | after a sign-out no token is stored in any fault-free continuation if and only if no POST is outstanding and no request can still get a first 401 |
| SignOuts.LogoutIsFinalExactly | frontend/app/(app)/profile/page.tsx:225-232 | in every fault-free continuation in which POST /auth/logout is answered, the session is dead and no token is stored from then on, if and only if as it is sent no POST is outstanding and no request can still get a first 401 |
| SignOuts.AnsweredLogoutLastsExactly | backend/src/modules/core/auth/auth.controller.ts:78-85 | once it is answered no token is stored in any fault-free continuation if and only if no POST is left that brings one or that a live session would accept, whatever requests are still unanswered |
| RefreshSafety.RecoverableExactly | backend/src/modules/core/auth/auth.controller.ts:63-76 | with the lock alone, the page can come to rest with the valid cookie if and only if the session lives and the valid token is on its way, or in the jar with no answer on its way that removes it |
| RefreshSafety.FaultIsSurvivedExactly | frontend/lib/api.ts:18-31 | with the lock alone, a fault leaves the page able to recover if and only if it is neither the loss of the answer to an accepted POST nor a refusal that removes the cookie |
| RefreshSafety.LostAnswerIsFatal | frontend/lib/api.ts:18-31 | once the answer to an accepted POST is lost, the refresh waiting for it and every later one of the lock fails, in every continuation |
| RefreshSafety.WithoutLockARequestLogsOut | frontend/lib/api.ts:9-12 | the same machine without the shared promise has a fault-free run of two requests that presents a used-up token and logs out |
| RefreshSafety.LocklessTwoPosts | frontend/lib/api.ts:9-12 | the state that run goes through: two POSTs with the same cookie in flight at once |
| ApiClient.Client.JoinOrStartRefresh | frontend/lib/api.ts:15-17 | joins the running refresh or starts one with the current cookie, and changes nothing else |
| ApiClient.Client.OnePostAtATime | frontend/lib/api.ts:13-34 | of every object: its promise is set exactly while a POST of the lock is outstanding, and at most one is |
| ApiClient.Client.FinishRefresh | frontend/lib/api.ts:27-31 | settles the promise with its result and clears the lock |
| ApiClient.Client.RefreshHeadersArrive | frontend/lib/api.ts:19-23 | a refused answer settles as failed; an accepted one replaces the cookie and waits for the body |
| ApiClient.Client.RefreshBodyArrives | frontend/lib/api.ts:24-26 | stores the new access token before the promise resolves |
| ApiClient.Client.FirstResponseArrives | frontend/lib/api.ts:60-61 | a 401 makes the request wait for the joined or started refresh, any other answer ends it |
| ApiClient.Client.ResumeWaiter | frontend/lib/api.ts:62-72 | a failed refresh removes the access token and the user, goes to /login and ends the request as expired; a successful one retries with the token stored now |
| ApiClient.Client.DirectHeadersArrive | frontend/lib/api.ts:54-61 | a first 401 to the refresh around the lock makes it join or start a refresh of the lock; any other refusal ends it; an accepted answer replaces the cookie |
| ApiClient.Client.DirectBodyArrives | frontend/app/(onboarding)/onboarding/page.tsx:530-531 | the token of the answer is stored whatever has been stored in between |
| ApiClient.Client.ResumeDirect | frontend/lib/api.ts:61-72 | a failed refresh of the lock logs out; after a successful one a second POST is sent around the lock |
| ApiClient.Client.Logout | frontend/lib/store/authStore.ts:47-52 | token, user and ban are gone afterwards, the page goes to /login, and posts, lock and requests are untouched |
| ApiClient.Client.ClearAuthStore | frontend/lib/store/authStore.ts:53 | token and user are gone afterwards; the ban, the page, posts, lock and requests are untouched |
| ApiClient.Client.LogoutEnds | frontend/app/(app)/profile/page.tsx:226-231 | whether POST /auth/logout was answered or failed, token, user and ban are gone and the page goes to /login; the cookie is gone if it was answered |
| SqlStatements.StatementsAreExact | backend/src/database/tenant-init.ts:64-73 | for a file without `$$` the statements are the only list that the uncommented text reads as, a grammar of trimmed statements, semicolons and white space |
| SqlStatements.CutReads | backend/src/database/tenant-init.ts:70-72 | what is cut out at semicolons reads as the text it was cut from |
| SqlStatements.ReadingIsUnique | backend/src/database/tenant-init.ts:70-72 | no other list of statements reads as the same text |
| SqlStatements.CommentsExactly | backend/src/database/tenant-init.ts:68 | a line is a comment if and only if only white space comes before two dashes in it |
| SqlStatements.OtherLinesStay | backend/src/database/tenant-init.ts:66-69 | a text without comment lines is cut as it is |
| SqlStatements.FunctionBodiesStayWhole | backend/src/database/tenant-init.ts:65 | a file with a double dollar sign anywhere is one statement, the file as it is |
| SqlStatements.DollarsExactly | backend/src/database/tenant-init.ts:65 | what counts as such a file |
| SqlStatements.CommentLinesDoNotMatter | backend/src/database/tenant-init.ts:67-69 | taking a comment line out from between any two lines leaves the same text |
| SqlStatements.StatementsOfPrint | backend/src/database/tenant-init.ts:64-73 | joining any plain statements with a semicolon and a line end and cutting the result gives them back |
| Migrations.HistoryConverges | backend/src/database/tenant-init.ts:98-118 | from any database on course, and after any history of runs over initial parts of the file list each of which died, if it died, at a point from which the pending file replays in that state: a run never fails, completes when not interrupted, and then leaves the state of one clean run |
| Migrations.EmptyDatabaseIsMigrated | backend/src/database/tenant-init.ts:84-118 | an empty database gets the whole schema from one uninterrupted run, with every file recorded |
| Migrations.CleanExactly | backend/src/database/tenant-init.ts:104-112 | what a clean run comes to: the statements cut from each file, file after file |
| Migrations.ExecExactly | backend/src/database/tenant-init.ts:110-112 | statements run one after the other until one fails |
| Migrations.RunStatementsExecutes | backend/src/database/tenant-init.ts:110-112 | however a run of statements ends, exactly the first ones have run: all when it completes, those before the failing one, or as many as there were queries for |
| Migrations.StepsExactly | backend/src/database/tenant-init.ts:110-112 | the log has one entry for each statement that was run, in order |
| Migrations.CrashesConverge | backend/src/database/tenant-init.ts:98-118 | so, wherever the runs died, if every file that is not yet recorded is replayable |
| Migrations.BaselineCrashesExactly | backend/src/database/tenant-init.ts:104-118 | with a first file of one statement that fails on a second run, and replayable files behind it, an uninterrupted run after any history from an unrecorded database completes in the state of a clean run if and only if no run died between that statement and its record |
| Migrations.StuckForever | backend/src/database/tenant-init.ts:110-113 | after a run that died there, no run ever changes or completes anything again |
| Migrations.DyingThereIsSafeExactly | backend/src/database/tenant-init.ts:110-113 | with one file left, dying after n of its statements is made good by the next uninterrupted run if and only if the file replays from that point in that state |
| Migrations.InterruptionIsSafeExactly | backend/src/database/tenant-init.ts:104-118 | interrupted runs over a file are continued to the state of a clean run, for all states and histories, if and only if the file is replayable |
| Migrations.BlocksReplay | backend/src/database/tenant-init.ts:10-12 | a file is replayable when it consists of replayable blocks none of which, run in whole or in part, undoes an earlier one |
| Migrations.DropThenAddReplays | backend/migrations/006_board_and_care.sql:65-67 | dropping a constraint if it exists and adding it is such a block, although adding it twice fails |
| Migrations.RepeatableStatementsReplay | backend/src/database/tenant-init.ts:10-12 | the special case of blocks of one statement: each does nothing on a second run and none undoes an earlier one |
| Migrations.RecordedOnceAfterRunning | backend/src/database/tenant-init.ts:110-113 | in every history a recorded file had all its statements run in order right before, is in the table, and none of its statements is ever run again; every file in the table got there that way |
| Migrations.RecordedIsPrefix | backend/src/database/tenant-init.ts:98-104 | while new files sort after old ones the recorded files are always the first ones of the sorted list |
| Migrations.CompletedIsQuiet | backend/src/database/tenant-init.ts:99-103 | after a completed run the next run on the same files executes no statement and changes nothing |
| Migrations.FencedForever | backend/src/database/tenant-init.ts:84-87 | a database with users but no tracking table is never changed by any history |
| Migrations.UntouchedExactly | backend/src/database/tenant-init.ts:84-98 | a run leaves a database untouched if and only if it has users and no tracking table; any other has the tracking table after the first query |
| Migrations.OwnDatabaseIsNeverFenced | backend/src/database/tenant-init.ts:84-91 | a database that was not fenced off at first never becomes so, wherever its runs died |
| TenantDatabase.Database.ExecuteStatements | backend/src/database/tenant-init.ts:110-112 | the inner loop runs the statements in order until the end, an error or the death of the process, and logs exactly those |
| TenantDatabase.Database.ApplyFile | backend/src/database/tenant-init.ts:107-116 | the file is recorded only after all its statements |
| TenantDatabase.Database.ApplyPending | backend/src/database/tenant-init.ts:104-118 | the outer loop is the fold over the pending files on which the theorems are stated |
| TenantDatabase.Database.ApplyMigrations | backend/src/database/tenant-init.ts:75-119 | one whole run, with fence, tracking table and pending files, is the run on which the theorems are stated |
| Templates.FillIsSubstitution | frontend/lib/care.ts:88-90 | filling replaces the holes of the parsed template and leaves every other character |
| Templates.FillReplaces | frontend/lib/care.ts:88-90 | a placeholder whose key has a value, any value, is replaced by it, and filling goes on behind it |
| Templates.FillKeeps | frontend/lib/care.ts:89 | a placeholder whose key is missing, or null or undefined, stays |
| Templates.FillCopies | frontend/lib/care.ts:89 | any character that begins no placeholder stays |
| Templates.KeysExactly | frontend/lib/care.ts:89 | keys are one or more letters without accents, digits or underscores |
| Templates.RenderOfParse | frontend/lib/care.ts:89 | parsing a template into literals and holes loses nothing |
| Templates.ParseOfRender | frontend/lib/care.ts:89 | stable token lists are parsed back as they are |
| Templates.MatchesExactly | frontend/lib/care.ts:89 | the pattern matches at a place if and only if the text there begins with a key in braces, and the match is that key |
| Templates.StagedFill | frontend/lib/care.ts:88-90 | in a stable template filling with a then b is filling once with a taking precedence, for brace-free values of a |
| Templates.StagesDiffer | frontend/lib/care.ts:88-90 | every unstable template has brace-free values for which the two differ |
| Templates.StagesAgreeExactly | frontend/lib/notification-resolver.ts:3-5 | staged and single filling agree for all brace-free first values if and only if the template is stable |
| Templates.OverTakesFirst | frontend/lib/care.ts:89 | the values that count in staged filling: those of the first stage, and of the second where the first has none |
| Templates.FillWithoutValues | frontend/lib/notification-resolver.ts:3-5 | for every template, filling without a value for any of its keys changes nothing |
| Templates.BracedValuesAreFilledAgain | frontend/lib/care.ts:88-90 | a value with braces is taken for a placeholder by a second filling |
| Money.CentsRoundTrip | frontend/lib/shop.ts:100-107 | printing and reading an amount gives it back, for all cents from 0 below 2^51, under any rounding with relative error up to 2^-53 |
| Money.RelativeErrorLimitExactly | frontend/lib/shop.ts:100-107 | every rounding with relative error up to 2^-53 reads back all amounts below a bound if and only if the bound is at most 2^51 cents |
| Money.Binary64LimitExactly | frontend/lib/shop.ts:100-107 | with binary64 all amounts below a bound are read back if and only if the bound is at most 2^45 euros and two cents |
| Money.EdgeRead | frontend/lib/shop.ts:100-107 | 2^45 euros and two cents are printed as themselves and read as three cents; up to one cent they are read back |
| Money.NegativeCentsAreRefused | frontend/lib/shop.ts:100-107 | a negative amount above -2^52 cents is printed with a sign and refused by the reader |
| Money.ReadingIsExact | frontend/lib/shop.ts:101-105 | reading gives the exact decimal value of an amount below 2^51 cents, and null for everything that is not an amount |
| Money.WrittenAmounts | frontend/lib/shop.ts:101-105 | digits with one or two places after a comma or a point are that amount, also with a euro sign and a blank before or behind |
| Money.DecorationsExactly | frontend/lib/shop.ts:102 | what is dropped is white space and the euro sign |
| Text.SpacesExactly | frontend/lib/shop.ts:102 | the white space characters one by one |
| Money.ValueOfDigits | frontend/lib/shop.ts:104 | a digit more makes ten times the value and the digit |
| Money.AmountsExactly | frontend/lib/shop.ts:103 | amounts are digits, or digits, a point and one or two digits, and nothing else |
| Money.DecorationDoesNotMatter | frontend/lib/shop.ts:102 | white space and euro signs, wherever they stand, do not change what is read |
| Money.SpellingsAgree | frontend/lib/shop.ts:101-107 | whole amounts with no, one or two places, after comma or point, are one amount and printed with two places |
| Money.PrintedForm | frontend/lib/shop.ts:106-108 | below 2^52 cents the printed text is the whole euros, a comma and two digits, with a sign when negative |
| Money.PrintingLimitExactly | frontend/lib/shop.ts:106-108 | with binary64 all amounts below a bound are printed as themselves if and only if the bound is at most 2^46 euros and one cent |
| Money.MisprintedCents | frontend/lib/shop.ts:106-108 | that amount is printed with two cents |
| Money.PrintedExamples | frontend/lib/shop.ts:106-108 | 305, -5 and 123456 cents are printed 3,05 and -0,05 and 1234,56 |
| Money.NoLeadingZeros | frontend/lib/shop.ts:107 | whole euros are printed without leading zeros |
| Money.Binary64Rounds | frontend/lib/shop.ts:104 | the assumption on rounding is met by round-to-nearest-even with 53 bits |
| AxisTicks.NiceTicks | frontend/components/analytics/charts.tsx:33-41 | the loop returns the ticks up to the first that reaches the maximum, and [0, 1] for no maximum |
| AxisTicks.StepIsACandidate | frontend/components/analytics/charts.tsx:35-37 | one of the five candidates is always found, so the fallback is never taken, and it is less than twice a third of the maximum |
| AxisTicks.StepIsLeast | frontend/components/analytics/charts.tsx:35-37 | the step is the smallest of all 1, 2, 2.5, 5 and 10 times a power of ten that reaches a third of the maximum |
| AxisTicks.RoundExactly | frontend/components/analytics/charts.tsx:37 | round numbers are 1, 2, 2.5, 5 and 10 times a power of ten |
| AxisTicks.PowersExactly | frontend/components/analytics/charts.tsx:36 | the powers of ten: 1, and ten times as much with every step |
| AxisTicks.NearestMillionth | frontend/components/analytics/charts.tsx:39 | every tick is rounded to the nearest millionth |
| AxisTicks.NiceFromThirtyMillionths | frontend/components/analytics/charts.tsx:37-39 | from 0.00003 on rounding changes no tick: 0 and two or three exact round steps, the last tick reaching the maximum and the one before not |
| AxisTicks.PromiseKeptExactly | frontend/components/analytics/charts.tsx:32-41 | two or three equal steps of 1, 2, 2.5, 5 or 10 times a power of ten up to the first value that reaches the maximum, if and only if it is above 0.000001 and not in the stretch from 0.000006 to 0.0000075 |
| AxisTicks.StopsExactly | frontend/components/analytics/charts.tsx:39 | the loop ends if and only if the maximum is above 0.00000075 |
| AxisTicks.FloorLog10Brackets | frontend/components/analytics/charts.tsx:36 | the magnitude is the largest power of ten that is not above the value |
| TickIndexes.TicksAreEven | frontend/components/analytics/charts.tsx:234-238 | as many labels as fit 80 pixels apart but at least two, both ends, strictly increasing, inside the list, and gaps that differ by at most one |
| TickIndexes.TicksAreNearest | frontend/components/analytics/charts.tsx:237 | every label is the one nearest to its even place |
| StackedColumns.DrawColumn | frontend/components/analytics/charts.tsx:359-371 | the loop draws every positive value on the running total of those before it |
| StackedColumns.VisibleKeepsTotal | frontend/components/analytics/charts.tsx:360 | the values that are drawn are positive and have the total of the column |
| StackedColumns.VisibleFilters | frontend/components/analytics/charts.tsx:360 | the drawn values are the positive ones, in their order |
| StackedColumns.ScaleIsLinear | frontend/components/analytics/charts.tsx:342 | 0 is the lower end of the plot, and heights are to the plot as values are to the top tick |
| StackedColumns.HeightIsValue | frontend/components/analytics/charts.tsx:365-371 | a segment with room is as high as its value, less the gap below all but the first |
| StackedColumns.TallExactly | frontend/components/analytics/charts.tsx:368 | a segment has that room if and only if the height of its value is at least the gap and half a pixel |
| StackedColumns.SegmentEdges | frontend/components/analytics/charts.tsx:365-371 | the lower edge is a gap above the base; the upper edge is at the new total if and only if the segment has room for the gap and half a pixel |
| StackedColumns.GapIsExactlyKept | frontend/components/analytics/charts.tsx:368-371 | the gap to the next segment is exact if and only if the lower one has that room |
| StackedColumns.OverlapExactly | frontend/components/analytics/charts.tsx:368-371 | two neighbours overlap if and only if the lower one lacks the room for its gap and half a pixel by more than a gap |
| StackedColumns.ColumnFits | frontend/components/analytics/charts.tsx:358-376 | with a total under the top tick and room in every segment all segments are inside the plot, apart by the gap, and end at the total |
| StackedColumns.StaysInsideExactly | frontend/components/analytics/charts.tsx:368-371 | no segment of a column leaves the plot at the top if and only if gap and half a pixel fit over the base of the last one |
| StackedColumns.ThinTopLeavesThePlot | frontend/components/analytics/charts.tsx:368-371 | a thin last segment of a full column is drawn beyond the upper end |
| StackedColumns.TopTickCovers | frontend/components/analytics/charts.tsx:334-336 | with the ticks made for the largest total no column exceeds the top tick, and some column exceeds the tick before it |
| StackedColumns.ChartAxis | frontend/components/analytics/charts.tsx:334-336 | the top of the plot is positive and no total of a column exceeds it |
| StackedColumns.DrawChart | frontend/components/analytics/charts.tsx:333-376 | the whole chart: in every column of values that are not negative and have room, there is one segment for each positive value, in order and as high as it less the gap, all inside the plot and apart by the gap, the first on the axis and the last ending at the total |
| Analytics.Compress | frontend/components/analytics/AnalyticsSection.tsx:84-89 | the loop returns the sums of consecutive groups |
| Analytics.GroupsKeepTheTotal | frontend/components/analytics/AnalyticsSection.tsx:84-89 | grouping keeps the total |
| Analytics.TotalAdds | frontend/components/analytics/AnalyticsSection.tsx:87 | the sum, value by value |
| Analytics.GroupIsASlice | frontend/components/analytics/AnalyticsSection.tsx:87 | each point is the sum of its own consecutive slice |
| Analytics.AtMostFourteenPoints | frontend/components/analytics/AnalyticsSection.tsx:83-89 | at most 14 points for every length |
| Analytics.GroupSizeIsLeast | frontend/components/analytics/AnalyticsSection.tsx:85 | no smaller group size gives at most 14 points |
| Analytics.Cumulative | frontend/components/analytics/AnalyticsSection.tsx:72-73 | each point is the start plus the sign-ups so far, never falling for non-negative sign-ups, ending at the total |
| Analytics.PercentileIsInRange | frontend/components/analytics/charts.tsx:445-447 | the percentile exists for a non-empty grid; its place has the share 0.95 of the other cells before it, rounded down, and no more cells than those behind it exceed the scale |
| Analytics.ShadesAreOrdered | frontend/components/analytics/charts.tsx:452-455 | shades of positive cells lie in 12 to 100, never fall as the value grows, start at 12 for the smallest cell unless it is the top of the scale, and are 100 from there on |
| Analytics.ShadeIsLinear | frontend/components/analytics/charts.tsx:452-455 | the shade is the nearest percentage to 12 and 88 times the share of the way from the smallest cell to the top of the scale |
| Analytics.GridScale | frontend/components/analytics/charts.tsx:445-447 | for every grid: with n positive cells the top of the scale is one of them, and at most a twentieth of the n - 1 others, rounded up, exceed it; without any the scale is 1 to 1 and no cell exceeds it |
| Analytics.GridShades | frontend/components/analytics/charts.tsx:445-455 | for every two positive cells of a grid: shades in 12 to 100, never falling, 100 from the top of the scale on, 12 for the smallest cell below it |
| Analytics.FlatAppends | frontend/components/analytics/charts.tsx:445 | the cells of the grid are its rows one after the other, and of these the positive ones |
| Shuffle.ShuffledIndices | frontend/components/HiddenEntryOverlay.tsx:115-122 | the array swaps in place are the shuffle by the drawn choices |
| Shuffle.ShuffleIsFair | frontend/components/HiddenEntryOverlay.tsx:115-122 | the results are exactly the permutations, and each comes from exactly one sequence of choices |
| Shuffle.ChoicesAreEven | frontend/components/HiddenEntryOverlay.tsx:118 | each of the i + 1 positions is chosen by an equal stretch of the random numbers |
| Shuffle.LastIsChosen | frontend/components/HiddenEntryOverlay.tsx:117-120 | the last position gets the element chosen for it, and the rest is shuffled the same way after the swap |
| Shuffle.EveryIndexOnce | frontend/components/HiddenEntryOverlay.tsx:116 | whatever is chosen, every index from 0 on is there once |
| Shuffle.ShuffleKeepsElements | frontend/components/HiddenEntryOverlay.tsx:117-120 | whatever the choices, the result has the same elements |
| QuoteBag.Session.NextQuote | frontend/components/HiddenEntryOverlay.tsx:168-180 | never takes from an empty bag, and adds one draw to draws made of whole permutations |
| QuoteBag.Session.Refill | frontend/components/HiddenEntryOverlay.tsx:170-172 | the new bag is the next permutation |
| QuoteBag.Session.constructor | frontend/components/HiddenEntryOverlay.tsx:138-145 | opening shuffles a bag and draws the first quote |
| QuoteBag.DrawsAreFair | frontend/components/HiddenEntryOverlay.tsx:168-174 | after m draws every one of n quotes was drawn m/n times, rounded down, or once more |
| QuoteBag.SessionIsFair | frontend/components/HiddenEntryOverlay.tsx:138-174 | the same for the draws of any session, at any time |
| QuoteBag.Session.IsFair | frontend/components/HiddenEntryOverlay.tsx:138-174 | of every object: no quote is drawn more than once ahead of its even share |
| Raygun.ChainIsSound | frontend/components/RaygunButton.tsx:211-270 | under every order of clicks and timers: closed is not animating, one live continuation exactly while animating, icons a prefix in order, open and idle shows all |
| Raygun.Opens | frontend/components/RaygunButton.tsx:211-227 | a click on a closed button shows no icon yet and sets the one timer of a chain with a new token |
| Raygun.OpeningShowsAll | frontend/components/RaygunButton.tsx:229-254 | then five timers, each set by the one before, show the four icons in order and end the animation |
| Raygun.ClosingStopsTheChain | frontend/components/RaygunButton.tsx:257-265 | closing hides all icons at any moment, and the timers still pending change nothing |
| Raygun.StepKeepsInv | frontend/components/RaygunButton.tsx:211-270 | clicks, before and after their wait for the audio, live and stale timers and unmounting keep the invariant |
| Raygun.ClickAlwaysActs | frontend/components/RaygunButton.tsx:212 | a click that acts always toggles, even after unmounting: the early return of openSocial is never taken |
| Raygun.NothingLivesAfterUnmount | frontend/components/RaygunButton.tsx:65-66 | after unmounting no pending timer is live, even when clicks that waited for the audio act later |
| Raygun.TimersUseWork | frontend/components/RaygunButton.tsx:229-253 | every timer callback uses up a measure, so the chain ends |
| Raygun.OpenEndsComplete | frontend/components/RaygunButton.tsx:229-253 | once all timers have fired an open button shows every icon |
| Raygun.Button.IsSound | frontend/components/RaygunButton.tsx:211-270 | of every object: closed is not animating and shows nothing, a live continuation is pending exactly while animating, open and idle shows every icon |
| Raygun.Button.Fire | frontend/components/RaygunButton.tsx:229-254 | a stale continuation changes nothing; a live one shows its icon and schedules the next, or ends the animation |
| Raygun.Button.Open | frontend/components/RaygunButton.tsx:211-227 | opening hides all icons, takes a new token and schedules the first step; after unmounting it schedules nothing |
| Raygun.Button.Close | frontend/components/RaygunButton.tsx:257-265 | closing hides all icons and replaces the token |
| Raygun.Button.AudioReady | frontend/components/RaygunButton.tsx:267-270 | a click acts after its wait: it closes an open button and opens a closed one |
| MediaSource.RevokedAtMostOnce | frontend/lib/hooks/useAuthedMediaSrc.ts:11-26 | in every order of events a blob URL is revoked at most once, and exactly those no longer alive were |
| MediaSource.NothingLeaks | frontend/lib/hooks/useAuthedMediaSrc.ts:22-25 | once unmounted with all responses settled no blob URL is alive |
| MediaSource.AtMostOneShown | frontend/lib/hooks/useAuthedMediaSrc.ts:11-26 | with all responses settled at most one blob URL is alive, the one of the current url |
| MediaSource.StaleResponsesAreInvisible | frontend/lib/hooks/useAuthedMediaSrc.ts:16-21 | a response for an old url never changes src; one for the current url shows its blob URL, which is alive; a failure of the current one clears src |
| MediaSource.OrdinaryUrlsAreShown | frontend/lib/hooks/useAuthedMediaSrc.ts:14-21 | a url that is no preview starts one fetch and leaves src; when it succeeds its new blob URL is shown and alive, when it fails nothing is shown |
| MediaSource.NoUrlShowsNothing | frontend/lib/hooks/useAuthedMediaSrc.ts:12 | without a url src is undefined and nothing is fetched |
| MediaSource.LeavingRevokes | frontend/lib/hooks/useAuthedMediaSrc.ts:17-25 | leaving a url revokes the blob URL shown for it and no other; one that arrives later is revoked as it arrives and never shown |
| MediaSource.PreviewsPassThrough | frontend/lib/hooks/useAuthedMediaSrc.ts:13 | a blob: or data: url is shown unchanged, fetches nothing and is not revoked by the next change |
| MediaSource.StepKeepsInv | frontend/lib/hooks/useAuthedMediaSrc.ts:11-26 | every event keeps each blob URL owned by exactly one effect or revoked exactly once |
| MediaSource.AuthedMediaSrc.RevokesEachOnce | frontend/lib/hooks/useAuthedMediaSrc.ts:11-26 | of every object: no blob URL is revoked twice, every one not alive was revoked, and none is alive once unmounted with all responses in |
| MediaSource.AuthedMediaSrc.Then | frontend/lib/hooks/useAuthedMediaSrc.ts:17-20 | a cancelled effect revokes what arrives, any other keeps and shows it |
| MediaSource.AuthedMediaSrc.Catch | frontend/lib/hooks/useAuthedMediaSrc.ts:21 | a failure clears src unless the effect was cancelled |
| MediaSource.AuthedMediaSrc.RunCleanup | frontend/lib/hooks/useAuthedMediaSrc.ts:22-25 | the cleanup cancels the effect and revokes the blob URL it shows |
| MediaSource.AuthedMediaSrc.CreateObjectURL | frontend/lib/api.ts:93-97 | a successful fetch makes one new blob URL for its caller |

## Left out

- TokenRefresh.SingleFlight: one page only; the lock does not span browser tabs that share the cookie. The server side is the single-use rule of backend/README.md:110 and backend/README.md:236.
- RefreshSafety.NoRequestLogsOut: one session; logging in again is not a step, and the navigation that logout() starts does not stop the page.
- TokenRefresh.BoundedWork: the error text read from a failed response is one step with the response, because it changes nothing; a failed data fetch counts as an answer other than 401.
- RefreshSafety.LostAnswerIsFatal: a POST whose connection broke before the server saw it does not reach the server later; a server error after the rotation counts as a lost answer.
- RefreshSafety.OverlapIsUnsafeExactly: the server looks a token up and revokes it in one step; in backend/src/modules/core/auth/auth.service.ts:197-212 these are two queries, between which an overlapping POST can be accepted too.
- RefreshSafety.SafeExactlyWithoutOverlap: the same server, which looks a token up and revokes it in one step.
- RefreshSafety.DirectRefreshIsSafeExactly: the photo upload that uses the token of the answer directly is not modelled.
- Headers other than the token (`buildHeaders`) and `decodeJwtRole` are not part of the model.
- Migrations.CrashesConverge: a statement either has its whole effect or none; a concurrent index build that leaves an invalid index behind is not covered. The content of a file is the same in every run, and only one init process runs at a time.
- Migrations.RecordedIsPrefix: reading, filtering and sorting the directory is a given list of distinct names.
- Creating the database and the bucket, the connection per file, secrets and configuration of tenant-init.ts.
- Templates.StagesAgreeExactly: keys that name inherited properties of a JavaScript object, such as `constructor`, count as keys without a value.
- `activityTotal` of AnalyticsSection.tsx, the sum of the series at each index.
- Looking up the template of a notification (`resolveNotificationContent`) is left out; what is then done with it is `Fill`.
- Money.CentsRoundTrip: the texts have fewer digits than the limit from which a parser may round twice.
- AxisTicks.NiceTicks: exact numbers instead of doubles, so values on the edge of two steps may fall to the other one.
- TickIndexes.TicksAreEven: the quotient is exact.
- StackedColumns.ColumnFits: exact numbers; the height is positive, as for every height of more than 36 pixels; the rounded corners are not modelled.
- Analytics.GridScale: 0.95 is exact, and cells are whole numbers.
- The position of the pointer, the area chart, the sparkline path, the funnel and all drawing.
- Raygun.ChainIsSound: canvas, sound and beam frames are left out, a stale step still clears the canvas; removing the button and running its cleanup are one step.
- MediaSource.AtMostOneShown: src may show a revoked blob URL until the next load finishes, so nothing is claimed about that.
- QuoteBag.Session.NextQuote: the fading and the delay before the drawn quote is shown.
