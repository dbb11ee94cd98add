# Waitlist landing page: a Dafny model of its rules

LaunchSignup is a marketing landing page with an e-mail waitlist. A visitor fills in a
form, the server validates the request with zod and stores one row per address in the
PostgreSQL table `waitlist_signups`, and an admin page lists the signups with a few
statistics. Under the UI and the database plumbing sit some small sequential rules.
This project models them in Dafny and proves what the code promises about them.

- **Schema and validators** (`schema.dfy`, module `Schema`). It holds the rows of `users`
  and `waitlist_signups` with their column defaults. The zod schemas
  `insertWaitlistSignupSchema`, `updateWaitlistSignupSchema` and
  `emailVerificationSchema` are parse functions. Each takes a JSON body and returns
  either the parsed value or zod's list of issues. For the signup and update schemas a
  predicate beside the parser says which bodies it accepts, and a lemma proves that the
  two agree; for the verification schema the parser's own contract states which bodies
  it accepts.
- **Storage** (`storage.dfy`, module `WaitlistStorage`). The class `DatabaseStorage`
  keeps each table as a sequence of rows plus the next value of its `serial` column. Its
  inserts are methods that enforce the unique constraints. Its queries are functions:
  lookup by exact address, listing newest first, and the windowed statistics with their
  rounded weekly growth.
- **Routes** (`routes.dfy`, module `Routes`). It covers the `POST /api/waitlist` handler
  (a method on the store), `GET /api/waitlist` and `POST /api/admin/auth`.
- **Owner allow-list** (`auth.dfy`, module `OwnerAuth`). It holds `isOwnerEmail`,
  `createSecureUser` and `authenticateUser`. The routes do not call these.
- **Client rules**. `waitlist_form.dfy` holds the form schema, the interest toggle and
  the submitted object. `query_client.dfy` holds the retry policy, the API base URL and
  the request and error shaping. `bounded_log.dfy`, `analytics_tracker.dfy` and
  `error_monitoring.dfy` hold the capped local logs. `performance_monitor.dfy` holds the
  badge colours.
- `text.dfy`, `json.dfy` and `wrappers.dfy` stand for the JavaScript string operations,
  parsed JSON values, and `Option`/`Result`.

Some of the waitlist's behaviour is not what a reader might expect; the model follows
the code:

- The signup path never trims or lower-cases the address. Lookup compares it exactly,
  so `JANE@Example.com` is stored as typed (`Schema.SignupKeepsAddressAsTyped`).
- A duplicate address gets 400, not 409.
- The 201 payload holds `id`, `fullName`, `email` and `timestamp`. It has no `status`.
- No verification token or expiry is generated. No status-update, bulk-update or export
  endpoint exists, and there is no rate limiting or input sanitising.
- The statistics are `totalSignups`, `todaySignups` and `weeklyGrowth`. There are no
  per-status counts.
- Admin authentication in the route is a case-sensitive `===` against one address. It
  is not a case-insensitive match against the allow-list
  (`Routes.AdminRouteStricterThanOwnerCheck`).
- `fullName` is checked for length without trimming.
- `GET /api/waitlist` is commented "admin only" but checks no credentials. The model
  follows the code.

PostgreSQL draws a `serial` value before it checks the constraints. So an insert that
fails on the unique address still advances the id counter while leaving the rows
unchanged. The model does the same.

## Model

| member | source | states |
|---|---|---|
| `Text.Lower` | server/auth.ts:58 | `toLowerCase` keeps the length, shifts every ASCII capital by 32 to its lower-case letter and keeps every other character |
| `Text.Trim` | server/auth.ts:58 | `trim` yields the slice s[a..b] with only white space outside it, neither starting nor ending with white space, and keeps a capital-free string capital-free |
| `Text.TrimIdempotent` | server/auth.ts:58 | trimming twice is trimming once |
| `Text.ContainsAt` | client/src/lib/queryClient.ts:26 | a `sub` found at any index k makes `s.includes(sub)` true |
| `Text.ContainsFound` | client/src/lib/queryClient.ts:26 | whenever `s.includes(sub)` holds, it names an index k with s[k..k + length of sub] == sub |
| `Text.ContainsExact` | client/src/lib/queryClient.ts:26 | `s.includes(sub)` holds iff `sub` occurs in `s` at some index (both directions, by `ContainsAt` and `ContainsFound`) |
| `Text.Take` | client/src/components/analytics-tracker.tsx:62 | `slice(0, n)` is a prefix of s with exactly min(length of s, n) characters |
| `Text.NatToString` | client/src/lib/queryClient.ts:63 | a status is printed as its decimal digits: a non-empty run of digits, without a leading zero for a positive number, whose decimal value is the status |
| `Schema.NewSignupRow` | shared/schema.ts:14-30 | an inserted row has status "pending", emailVerified false, priority 0 and every other defaultless column null; it carries the supplied fields, the serial id and the insert time |
| `Schema.SignupValidatorExact` | shared/schema.ts:42-52 | the signup validator accepts exactly the object bodies with a 2–100 character fullName, a syntactically valid email, an optional string referralSource and an optional array of strings as interests; the parsed fields equal the body's strings unchanged (no trimming or case folding, no length cap on email) |
| `Schema.ParseStringsExact` | shared/schema.ts:51 | an interests array parses iff every element is a string, and then to those strings in order |
| `Schema.SignupNameBounds` | shared/schema.ts:49 | an accepted name has between 2 and 100 characters, both bounds inclusive |
| `Schema.SignupIgnoresOtherKeys` | shared/schema.ts:42-47 | keys other than fullName, email, referralSource and interests (status, priority, notes, id, timestamp, …) never change the parse |
| `Schema.SignupKeepsAddressAsTyped` | shared/schema.ts:48 | an address in capitals is accepted and kept in capitals |
| `Schema.SampleAddressIsEmail` | shared/schema.ts:48 | the address of the worked example satisfies the e-mail syntax |
| `Schema.UpdateValidatorExact` | shared/schema.ts:54-61 | an update is accepted iff status is one of pending, verified, invited, declined, priority is a number in [0, 10], and notes is absent, null or a string |
| `Schema.ParseVerification` | shared/schema.ts:63-65 | a verification body is accepted iff its token is a non-empty string; the empty token is refused with "Verification token is required" |
| `WaitlistStorage.FindFirst` | server/storage.ts:38-41 | a `WHERE` lookup returns a matching row, the first one, or nothing exactly when no row matches |
| `WaitlistStorage.InsertByTime` | server/storage.ts:52 | inserting a row into a newest-first list keeps it newest-first and adds exactly that row |
| `WaitlistStorage.SortNewestFirst` | server/storage.ts:52 | `ORDER BY timestamp DESC` returns a permutation of the rows with non-increasing timestamps |
| `WaitlistStorage.CountSinceAntitone` | server/storage.ts:66-71 | a later cut-off never counts more rows |
| `WaitlistStorage.CountSinceSplit` | server/storage.ts:68-76 | the rows since two weeks ago are last week's rows plus this week's rows |
| `WaitlistStorage.RoundHalfUp` | server/storage.ts:79 | `Math.round(n / d)` is the integer nearest n/d, ties rounded up |
| `WaitlistStorage.WeeklyGrowth` | server/storage.ts:78-80 | with last week > 0 the growth is 100·(this − last)/last rounded half up; otherwise 100 if this week > 0, else 0; it is never below −100 and is 0 when the weeks are equal |
| `WaitlistStorage.GrowthBounds` | server/storage.ts:79 | a rounded growth ratio cannot fall below −100 and is 0 with no change |
| `WaitlistStorage.WaitlistStats` | server/storage.ts:55-87 | totalSignups is the row count; todaySignups is the number of rows since the start of today, at most the total; weeklyGrowth is the rounded growth of this week's over last week's rows, at least −100 |
| `WaitlistStorage.StatsWindows` | server/storage.ts:60-76 | todaySignups ≤ thisWeekSignups ≤ totalSignups; lastWeekSignups is the number of rows in [today − 14 days, today − 7 days), hence never negative |
| `WaitlistStorage.StatsOfEmptyTable` | server/storage.ts:73-80 | an empty table gives 0, 0, 0 |
| `WaitlistStorage.GrowthExamples` | server/storage.ts:78-80 | 10 after 5 is 100, 5 after 0 is 100, 0 after 0 is 0 |
| `WaitlistStorage.DatabaseStorage.constructor` | server/storage.ts:90 | the store starts with empty tables and both serial counters at 1 |
| `WaitlistStorage.DatabaseStorage.GetUser` | server/storage.ts:20-23 | returns a user with that id, or nothing exactly when there is none |
| `WaitlistStorage.DatabaseStorage.GetUserByUsername` | server/storage.ts:25-28 | returns a user with exactly that username, or nothing exactly when there is none |
| `WaitlistStorage.DatabaseStorage.CreateUser` | server/storage.ts:30-36 | appends an active user with a fresh id, or fails on the unique username with the table unchanged; the table invariants are kept |
| `WaitlistStorage.DatabaseStorage.GetWaitlistSignupByEmail` | server/storage.ts:38-41 | returns the row whose email equals the argument exactly (case-sensitive), the only one, or nothing exactly when no row has it |
| `WaitlistStorage.DatabaseStorage.CreateWaitlistSignup` | server/storage.ts:43-49 | adds exactly one row with the column defaults and an id greater than every existing id, keeping all other rows and returning the inserted row; an address already present fails on the unique constraint with the rows unchanged; unique emails and increasing ids are kept |
| `WaitlistStorage.DatabaseStorage.GetAllWaitlistSignups` | server/storage.ts:51-53 | every row exactly once, newest first |
| `WaitlistStorage.DatabaseStorage.GetWaitlistStats` | server/storage.ts:55-87 | the statistics of the current rows: the row count, the rows since today, and the weekly growth, with the window inequalities |
| `Routes.Summary` | server/routes.ts:24-29 | the 201 payload copies exactly id, fullName, email and timestamp from the inserted row |
| `Routes.PostWaitlist` | server/routes.ts:9-41 | invalid input gives 400 "Invalid input data" with zod's issues and leaves storage untouched; an address already present (exact match) gives 400 "Email address is already registered in our waitlist" with the table unchanged; otherwise exactly one row is appended, the users table and its counter stay as they were, the signup serial advances by one, and the reply is 201 with the row's summary |
| `Routes.SubmitTwice` | server/routes.ts:14-22 | the same valid new signup posted twice gives 201 then 400, and the table grows by exactly one row |
| `Routes.GetWaitlist` | server/routes.ts:44-57 | all signups, newest first, together with the statistics of the same table |
| `Routes.AdminAuth` | server/routes.ts:60-79 | authenticated true (200) iff the body's email is exactly "ervin210@icloud.com"; any other value gets 401 with authenticated false; a null body gets 500 at handler level (unreachable behind `express.json()` in its default strict mode, which refuses a top-level `null`) |
| `Routes.AdminRouteStricterThanOwnerCheck` | server/routes.ts:64 | every address the route admits passes `isOwnerEmail`, but the second owner address passes `isOwnerEmail` and is refused by the route |
| `OwnerAuth.SomeOwnerMatches` | server/auth.ts:59-61 | `some` holds iff some listed address, lower-cased, equals the normalised input |
| `OwnerAuth.OwnerEmailsAreLower` | server/auth.ts:9-15 | both owner addresses are already lower case |
| `OwnerAuth.OwnerAddressesAreOwners` | server/auth.ts:9-15 | both listed addresses pass the owner check |
| `OwnerAuth.IsOwnerEmailExact` | server/auth.ts:57-62 | `isOwnerEmail(e)` iff trim(lower(e)) is "ervin210@icloud.com" or "radosavlevici210@gmail.com" |
| `OwnerAuth.NormalizeIdempotent` | server/auth.ts:58 | normalising twice is normalising once |
| `OwnerAuth.OwnerCheckNormalizes` | server/auth.ts:57-62 | `isOwnerEmail(e) == isOwnerEmail(trim(lower(e)))`: the check ignores case and surrounding white space |
| `OwnerAuth.OwnerCheckIgnoresCase` | server/auth.ts:58 | upper-casing the address never changes the verdict |
| `OwnerAuth.CreateSecureUser` | server/auth.ts:75-89 | non-owners fail with "Unauthorized: Only owner can create accounts"; owners get a record with the normalised address (one of the two owners), isOwner and quantumProtected true, the hash of the password |
| `OwnerAuth.AuthenticateUser` | server/auth.ts:92-111 | non-owners fail with "Access denied: Unauthorized email"; owners succeed whatever the password, with the normalised address in the user record and the token issued for the address exactly as given |
| `OwnerAuth.TokenIssuedForRawAddress` | server/auth.ts:99-108 | "Ervin210@iCloud.com " is accepted; its user record holds "ervin210@icloud.com" while the token is issued for the raw string |
| `WaitlistForm.RemoveAll` | client/src/components/waitlist-form.tsx:97 | `filter(i => i !== x)` removes every x, keeps every other element with its multiplicity, and keeps their order (a subsequence of the list) |
| `WaitlistForm.ToggleInterest` | client/src/components/waitlist-form.tsx:94-100 | after a toggle x is present iff it was absent; the other elements are unchanged; an absent x is appended once, at the end |
| `WaitlistForm.RemoveAllTwice` | client/src/components/waitlist-form.tsx:97 | filtering out x twice is filtering it once |
| `WaitlistForm.RemoveAllAbsent` | client/src/components/waitlist-form.tsx:97 | filtering out an absent x keeps the list |
| `WaitlistForm.RemoveAllAppended` | client/src/components/waitlist-form.tsx:96-98 | appending x and then filtering it out gives the list without x |
| `WaitlistForm.ToggleTwiceRestores` | client/src/components/waitlist-form.tsx:96-98 | toggling x twice from a list without x restores the list |
| `WaitlistForm.RemoveAllNoDuplicates` | client/src/components/waitlist-form.tsx:97 | filtering keeps a duplicate-free list duplicate-free |
| `WaitlistForm.ToggleKeepsNoDuplicates` | client/src/components/waitlist-form.tsx:96-98 | a toggle keeps the selection duplicate-free |
| `WaitlistForm.OnSubmit` | client/src/components/waitlist-form.tsx:86-90 | the sent object has interests replaced by the selected interests and every other field unchanged |
| `WaitlistForm.FormBody` | client/src/lib/queryClient.ts:55-56 | the JSON object the form sends has exactly the keys fullName and email plus referralSource and interests when present, each carrying the form's value, the interests as an array of strings (`JSON.stringify` drops undefined fields) |
| `WaitlistForm.Strings` | client/src/components/waitlist-form.tsx:89 | the selected interests are serialised as JSON strings, in order |
| `WaitlistForm.ClientFormPassesServer` | client/src/components/waitlist-form.tsx:16-25 | a form the client accepts (name of 2–100 characters, valid address of at most 255) is accepted by the server's validator, with the same fields and the selected interests |
| `WaitlistForm.ServerAcceptsLongerAddress` | client/src/components/waitlist-form.tsx:20-22 | a 256-character address the client refuses is accepted by the server, which has no length cap |
| `QueryClient.RetryPolicy` | client/src/lib/queryClient.ts:7-17 | a query is never retried on a status in [400, 500); otherwise, also with no status, it is retried iff failureCount < 3; a mutation is never retried |
| `QueryClient.RetriesMade` | client/src/lib/queryClient.ts:7-13 | the retries made never outnumber the failures |
| `QueryClient.AtMostThreeRetries` | client/src/lib/queryClient.ts:12 | whatever the failures, a query is retried at most three times |
| `QueryClient.MutationNeverRetried` | client/src/lib/queryClient.ts:16 | a mutation makes no retry |
| `QueryClient.GetApiBaseUrl` | client/src/lib/queryClient.ts:22-37 | "" without a window; the Netlify functions URL when the hostname contains "netlify.app"; "http://localhost:5000" for "localhost" and "127.0.0.1"; the page origin otherwise |
| `QueryClient.NetlifySubdomain` | client/src/lib/queryClient.ts:26 | every host ending in "netlify.app" gets the functions URL |
| `QueryClient.BuildRequest` | client/src/lib/queryClient.ts:39-57 | the URL is the base URL followed by the endpoint; a body is attached iff one is given and it is truthy |
| `QueryClient.ErrorMessage` | client/src/lib/queryClient.ts:62-63 | a non-empty string `message` from the server is used as is; otherwise the text is "HTTP error! status: N"; it is never empty |
| `QueryClient.SettleResponse` | client/src/lib/queryClient.ts:59-68 | an ok response is returned; any other raises an error carrying the response status, with "Network error" when the body is not JSON and otherwise the server's non-empty string `message` (so "Email address is already registered in our waitlist" reaches the form) or "HTTP error! status: N"; a `null` body makes the `.message` read throw |
| `QueryClient.StatusInFallbackMessage` | client/src/lib/queryClient.ts:63 | a failed reply without a message reports "HTTP error! status: N" |
| `BoundedLog.KeepNewest` | client/src/components/analytics-tracker.tsx:31-33 | the splice keeps the newest cap entries: a suffix of length min(length, cap) |
| `BoundedLog.AppendCapped` | client/src/components/analytics-tracker.tsx:28-33 | after push-then-splice the length is min(old + 1, cap), the new entry is last, the list is a suffix of old ++ [entry], and nothing is dropped when the old list is under the cap |
| `BoundedLog.FullLogDropsOldest` | client/src/components/error-monitoring.tsx:45-47 | recording into a full log drops exactly its oldest entry |
| `BoundedLog.KeepNewestAbsorbs` | client/src/components/error-monitoring.tsx:42-47 | trimming before later appends keeps the same newest entries as trimming after them |
| `BoundedLog.AppendAllKeepsNewest` | client/src/components/analytics-tracker.tsx:26-35 | after any non-empty run of records the log is the newest cap of all entries, in recording order |
| `AnalyticsTracker.InteractionText` | client/src/components/analytics-tracker.tsx:62 | the recorded text is a prefix of the element's text of exactly min(length, 50) characters, or "" when it has none |
| `AnalyticsTracker.LocalAnalytics.constructor` | client/src/components/analytics-tracker.tsx:26-27 | the logs start as the stored arrays |
| `AnalyticsTracker.LocalAnalytics.TrackPageView` | client/src/components/analytics-tracker.tsx:16-35 | the stored page views become old ++ [event] with only the oldest dropped beyond 100; the new view is last; the interaction log is unchanged |
| `AnalyticsTracker.LocalAnalytics.TrackInteraction` | client/src/components/analytics-tracker.tsx:56-77 | a click on a BUTTON, an A or a role="button" element is appended under the cap of 50; any other click changes nothing |
| `ErrorMonitoring.RejectionMessage` | client/src/components/error-monitoring.tsx:28 | the message is "Unhandled Promise Rejection: " followed by the reason |
| `ErrorMonitoring.ErrorLog.constructor` | client/src/components/error-monitoring.tsx:40-41 | the log starts as the stored array |
| `ErrorMonitoring.ErrorLog.LogError` | client/src/components/error-monitoring.tsx:38-50 | the stored errors become old ++ [error] with only the oldest dropped beyond 50; the new error is last |
| `ErrorMonitoring.ErrorLog.HandleGlobalError` | client/src/components/error-monitoring.tsx:14-24 | a global error is logged with its message, stack, URL, time and user agent |
| `ErrorMonitoring.ErrorLog.HandleUnhandledRejection` | client/src/components/error-monitoring.tsx:26-36 | a rejection is logged with the prefixed message |
| `PerformanceMonitor.GetScoreColor` | client/src/components/performance-monitor.tsx:66-70 | green when value ≤ t0, yellow when t0 < value ≤ t1, red when value is above both |
| `PerformanceMonitor.ScoreColorMonotone` | client/src/components/performance-monitor.tsx:66-70 | with t0 ≤ t1 a larger value never gets a better colour |
| `PerformanceMonitor.TimingBadges` | client/src/components/performance-monitor.tsx:86-114 | load time uses [1000, 3000], FCP [1800, 3000], LCP [2500, 4000]; the LCP badge is shown only when LCP > 0 |

## Left out

- The PostgreSQL driver, the connection and `server/db.ts` are not modelled. The tables
  are in-memory sequences whose behaviour follows the queries.
- bcrypt hashing, JWT signing and the random secret are foreign library calls. They are
  the function parameters `hash` and `issueToken`. The token payload, its 24-hour expiry
  and `verifySecureToken` are not modelled.
- The start of the current local day is the parameter `today`, in milliseconds. The
  clock (`defaultNow()`, `new Date()`, `toISOString`) becomes the parameter `now`.
- `WaitlistStorage.WeeklyGrowth` and `WaitlistStorage.RoundHalfUp` compute
  `Math.round` exactly on rationals. They do not claim agreement with IEEE
  floating-point results at .5 boundaries.
- `WaitlistStorage.SortNewestFirst`: PostgreSQL leaves the order of equal timestamps
  unspecified. The model keeps insertion order for them.
- zod's e-mail regular expression is `Text.IsEmail`, a simpler syntactic check: a
  non-empty local part and a domain with an inner dot, joined by the only `@`, with no
  white space.
- String lengths count characters, not UTF-16 code units.
- Lower-casing covers ASCII letters only. Trimming covers ASCII white space only.
- JSON numbers are integers, so zod's acceptance of fractional priorities is not
  modelled. The column is an integer.
- `Schema.ParseStrings`: zod's issue path for a bad array element is
  `["interests", k]`. The model records the field name only.
- The check-then-insert race between the duplicate lookup and the insert is left out
  (concurrency). In this sequential model the handler's 500 reply for a failed insert
  cannot occur. Other unexpected exceptions are not modelled.
- localStorage, with the `JSON.parse`/`JSON.stringify` of the stored logs, `fetch`, the
  production uploads of analytics and errors, and console output are left out. Only the
  stored arrays and the decision functions are modelled. A stored value that is not a
  JSON array is not modelled. The request body the form sends is modelled as a JSON
  value (`WaitlistForm.FormBody`), not as its serialised text.
- `QueryClient.RetriesMade` assumes how react-query calls the predicate: `failureCount`
  starts at 0 and is counted up after each retry. The library itself is not part of
  this model.
- `QueryClient.ErrorMessage`: JavaScript turns a truthy non-string `message` into a
  string. The model uses the "HTTP error! status: N" text for such values instead.
- `QueryClient.BuildRequest`: the fixed headers and `credentials: 'include'` are
  constants and are not modelled.
- PerformanceObserver, the floating-point layout-shift sum, the connection badge and
  the rule that decides when the monitor is visible are browser I/O. They are left out.
- React rendering and DOM work are left out: the pages, the admin dashboard, App, the
  service worker, the security headers and the SEO meta tags. The Express, cors and
  Netlify function plumbing is left out too.
- `client/src/lib/types.ts` only declares types. Its per-status counts are computed
  nowhere.
- The shown code has no verification tokens or expiry, no status, priority or bulk
  updates, no rate limiting, no CSV export and no input sanitising. These are left out
  because there is nothing to compare against.
