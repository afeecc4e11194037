# QuickLinks link store in Dafny

QuickLinks is a URL-shortening web service. Users sign up and log in. They
submit long URLs and get six-character short codes back. A visit to a short
code is logged as a click and answered with a permanent redirect to the long
URL. An administrator sees aggregate statistics and can change any user's
plan. All state lives in three in-memory tables: `users`, `urls` and `clicks`.

This project models that link store and its HTTP handlers.

- `types.dfy` (module `Types`) holds the records, the session value, the
  error outcomes, the constants (trial length, free-plan limit, price per
  paid user, reserved page names) and the two authorisation gates.
- `seqs.dfy` (module `Seqs`) holds `Filter` and the first-match search that
  every handler is built from, with their append and update lemmas.
- `trial.dfy` (module `Trial`) holds the trial-days arithmetic. It uses
  integer milliseconds and integer ceiling division.
- `shortcode.dfy` (module `ShortCode`) holds the code generator. It is a
  counted loop over six random draws, each picking from a 62-character
  alphabet.
- `views.dfy` (module `Views`) holds the pure read side: lookups, per-link
  click and unique-visitor counts, the admin reports, the user-table
  invariant, and the lemmas that tie each write to its effect on these
  views.
- `store.dfy` (module `Store`) holds class `LinkStore`. Its fields are the
  three tables, and it has one method per handler. Each method states the
  complete new state and result on every path, and keeps `Valid()`.
- `scenario.dfy` (module `Scenario`) is a client of the store. It signs
  up, shortens a URL, follows it once and lists the links, using only the
  handlers' contracts.

The session is an explicit value: `Anonymous`, or a user id with an email
and a role. Handlers that establish a session return the new one. The
following are parameters:

- the clock (`now`, in milliseconds);
- the six `Math.random` draws;
- the configured base URL;
- the visitor's address and headers;
- the calendar-day function used by "new users today".

`Valid()` is an invariant of the user table that every handler keeps:

- the bootstrap admin comes first and every later user is a plain user;
- user ids equal position + 1, because users are appended with
  `users.length + 1` and never removed;
- no email occurs twice.

It also says that click ids equal position + 1. Link ids are NOT assumed
unique. A new link's id is `urls.length + 1`, so after a delete an id can
come back. Every lookup by id takes the first match.
`Store.ReusedIdInheritsClicks` shows one consequence. After the newest link
is deleted, the next link gets its id, and the listing counts the deleted
link's clicks as the new link's own. `ShortCode.ReservedCodes` shows that
`signup` is the only reserved page name that a generated code can equal. A
link that drew that code could never be resolved.

Three behaviours of the handlers worth knowing:

- Signup and login check for a missing email or password before anything
  else.
- Shorten answers 500 (`ServerError`) when the session's user id matches
  no user.
- The admin gate answers 403 even to a request with no session.

The quota check reads a null trial end as the epoch (`new Date(null)` is
time 0). So a free account with no trial end that already owns three or
more links is refused with `TrialExpired`, never with `LimitReached`.

## Model

| member | source | states |
|---|---|---|
| `Types.IsAuthenticated` | server.js:75-81 | the authentication gate passes exactly the sessions bound to a non-zero (truthy) user id; an anonymous session, or one carrying id 0, is refused with 401 |
| `Types.IsAdmin` | server.js:83-89 | the admin gate passes exactly the authenticated sessions whose role is 'admin', so it implies the authentication gate and never passes a 'user' session |
| `Types.LogOut` | server.js:176-179 | after logout neither gate passes, whatever the session held |
| `Types.OrDefault` | server.js:43-44 | a set, non-empty environment value is used as it is; an unset or empty one gives the default |
| `Seqs.Filter` | server.js:254 | the filtered list holds exactly the elements of the input that satisfy the predicate and is no longer than the input |
| `Seqs.FindIndex` | server.js:274 | the result is the first index whose element satisfies the predicate; it is absent exactly when no element does |
| `Seqs.FilterAppend` | server.js:254 | filtering distributes over concatenation, so it keeps store order |
| `Seqs.FilterAll` | server.js:286 | filtering a list whose every element qualifies returns the list unchanged |
| `Seqs.FilterUpdateCount` | server.js:367 | overwriting one element changes a filtered count only by whether the old and the new element qualify |
| `Trial.CeilDays` | server.js:157 | the result d is the ceiling of ms / one day: (d-1) days < ms <= d days |
| `Trial.DaysLeft` | server.js:157 | daysLeft is null exactly when there is no trial end; otherwise it is positive exactly when the trial end lies after now |
| `Trial.StatusOf` | server.js:155-171 | active iff a trial end exists and lies after now; expired iff not active; the days reported are >= 0, are 0 when not active, and are the rounded-up day count when active; a null trial end gives expired with 0 days |
| `Trial.FreshTrial` | server.js:103-104 | a trial ending 30 days from now is active, not expired, with 30 days left |
| `Trial.StatusMonotone` | server.js:188-202 | as time passes the days left never grow, and an expired trial stays expired |
| `ShortCode.Pick` | server.js:66 | a random draw in [0, 1) selects an index inside the 62-character alphabet |
| `ShortCode.CodeFor` | server.js:62-69 | the code spelled by six valid draws is six characters, all from the alphabet |
| `ShortCode.Generate` | server.js:62-69 | the counted loop builds exactly the code the draws spell |
| `ShortCode.ReservedCodes` | server.js:376 | among the reserved page names, 'signup' and only 'signup' has the shape of a generated code |
| `Views.FindUserByCredentials` | server.js:71-73 | returns the first user whose email and password both match; absent exactly when none does |
| `Views.EmailRegistered` | server.js:99 | true exactly when some user already has that email |
| `Views.FindUserById` | server.js:182 | returns the first user with the id; absent exactly when none has it |
| `Views.FindUrlByCode` | server.js:380 | returns the first link with the short code; absent exactly when none has it |
| `Views.FindUrlById` | server.js:317 | returns the first link with the id; absent exactly when none has it |
| `Views.FindOwnedUrl` | server.js:274 | returns the first link matching both the id and the owner; absent exactly when none does |
| `Views.NewUser` | server.js:103-116 | the user signup creates gets id = count + 1, role 'user' and plan 'free', and email, password and name stored as given, trial end now + 30 days, created and last login now, and its trial shows active with 30 days at creation time |
| `Views.SignupKeepsWellFormed` | server.js:99-118 | appending a new user whose email is not yet registered keeps the user table well formed |
| `Views.SignupThenLogin` | server.js:143 | after a signup, a login with the same email and password finds exactly the new user |
| `Views.CredentialsIdentifyUser` | server.js:71-73 | because emails are unique, a credential match is the only user with that email |
| `Views.UserIdLookup` | server.js:107 | in a well-formed table, looking up id n finds position n - 1 when 1 <= n <= count, and nothing otherwise |
| `Views.UpdateKeepsWellFormed` | server.js:149 | overwriting a user's login time or plan, keeping id, email and role, keeps the table well formed |
| `Views.OwnedBy` | server.js:254 | the caller's links are exactly the stored links whose owner is the caller |
| `Views.ClicksOf` | server.js:257 | a link's clicks are exactly the click records carrying its id |
| `Views.Ips` | server.js:258 | the distinct addresses of some clicks are the set of their ips |
| `Views.IpsAtMost` | server.js:258-263 | there are never more distinct addresses than clicks |
| `Views.IpsAppend` | server.js:258 | one more click adds its address to the distinct set and nothing else |
| `Views.WithStats` | server.js:256-265 | a listed link is the stored link with clicks = its click-record count and uniqueVisitors = the number of distinct ips among them; uniqueVisitors <= clicks and both are zero together |
| `Views.ListWithStats` | server.js:252-268 | the listing has one entry per link the caller owns, each owned by the caller with uniqueVisitors <= clicks, and every owned link appears with its statistics |
| `Views.ListAfterAppend` | server.js:254-265 | a link appended to the store is listed last for its owner and for nobody else, so listing keeps store order |
| `Views.AppendOwnedLink` | server.js:244 | a shortened link adds exactly one entry, at the end, to its owner's links and none to other users' |
| `Views.RemoveOwnedLink` | server.js:280 | splicing out a link keeps the rest of each user's links in order and lowers only its owner's count, by one |
| `Views.RecordClick` | server.js:387-394 | a recorded click adds one click and its address to the visited link's statistics and changes no other link's |
| `Views.OneVisitListing` | server.js:256-264 | a link visited once lists with clicks = 1 and uniqueVisitors = 1 |
| `Views.NonAdmins` | server.js:286 | the counted users are exactly those whose role is not admin |
| `Views.PaidUsers` | server.js:287 | the paid users are exactly those on plan 'pro' or 'business' |
| `Views.StatsOf` | server.js:285-309 | mrr = 9 x paid users; totalUsers counts non-admins and paidUsers counts pro/business users; totalUrls and totalClicks are the table sizes |
| `Views.NonAdminsAreTheRest` | server.js:286 | in a well-formed table the non-admin users are all users but the first |
| `Views.MrrOfNewUser` | server.js:296 | adding a user raises mrr by 9 if its plan is pro or business and leaves it unchanged otherwise |
| `Views.PlanChangeStats` | server.js:367 | a plan change keeps totalUsers; paidUsers moves only by the paid status of the old and the new plan |
| `Views.ClickOwner` | server.js:316-319 | a click has an owner exactly when some link carries its urlId, and the owner is the user of the first such link |
| `Views.SummaryOf` | server.js:314-332 | a user's row copies the user's id, email, name, role, plan, trial end, creation and last-login times, counts the user's links, and counts exactly the clicks whose link (first match by urlId) belongs to the user, so it is at most all clicks and non-zero when any such click exists |
| `Views.AdminUserRows` | server.js:311-336 | one row per non-admin user, in table order, row i being the summary of the i-th non-admin user; none of them an admin, each with at most all clicks |
| `Views.AdminUserRowsOrder` | server.js:312-313 | in a well-formed table the report lists users 2, 3, ... in table order, and there are count - 1 rows |
| `Views.OwnerEmail` | server.js:340-349 | the owner email is 'Unknown' when no user has the id, and otherwise the email of a user carrying it |
| `Views.OwnerEmailByPosition` | server.js:340 | in a well-formed table the owner of user id n is the user at position n - 1, or 'Unknown' when n is out of range |
| `Views.AdminUrlRows` | server.js:338-355 | one row per stored link, in store order, carrying its id, URLs, code and creation time, its owner's email (or 'Unknown'), and its click-record count |
| `Store.TrialEndMs` | server.js:220 | the trial end the quota check compares with now: the stored trial end, or 0 (the epoch) when it is null |
| `Store.QuotaCheck` | server.js:219-226 | refused exactly when the plan is 'free' and the caller already owns >= 3 links; the refusal is 'trial expired' exactly when the trial end is not after now, else 'limit reached' |
| `Store.QuotaBoundsFreeUser` | server.js:217-226 | a free user who passes the quota owns at most 3 links afterwards |
| `Store.NewLink` | server.js:228-242 | the stored link has id = count + 1, the caller as owner, the long URL verbatim, a valid 6-character code equal to the code the draws select, creation time now, shortUrl = base + '/' + code, and zero stored counts |
| `Store.ReusedIdInheritsClicks` | server.js:234 | after the newest link is deleted, the next link reuses its id and lists the deleted link's clicks as its own |
| `Store.LinkStore.constructor` | server.js:37-55 | empty link and click tables and one admin user (id 1, plan 'unlimited', no trial end) with the configured or default credentials |
| `Store.LinkStore.SignUp` | server.js:92-134 | a missing email or password, or a registered email, fails with users unchanged; otherwise exactly one new free user with a 30-day trial is appended and the session is bound to it |
| `Store.LinkStore.LogIn` | server.js:136-174 | a missing field or no credential match fails with users unchanged; otherwise only the first match's lastLogin changes, the session is bound to it and its trial status is reported |
| `Store.LinkStore.Me` | server.js:181-205 | unauthenticated fails; an unknown session user fails with not-found; otherwise the first user with the session's id is projected with its trial status and creation time |
| `Store.LinkStore.Shorten` | server.js:208-250 | the gates and the quota refuse with urls unchanged; otherwise exactly one link owned by the caller is appended |
| `Store.LinkStore.ListUrls` | server.js:252-268 | an authenticated caller gets the listing of their own links with statistics |
| `Store.LinkStore.DeleteUrl` | server.js:270-282 | removes exactly the first link matching id and caller, keeping the others in order; otherwise not-found with urls unchanged; clicks never change |
| `Store.LinkStore.AdminStats` | server.js:285-309 | only an admin session gets the statistics |
| `Store.LinkStore.AdminUsers` | server.js:311-336 | only an admin session gets the user report |
| `Store.LinkStore.AdminUrls` | server.js:338-355 | only an admin session gets the link report |
| `Store.LinkStore.SetPlan` | server.js:357-369 | only the plan of the first user with the id is overwritten, verbatim; an unknown id fails with users unchanged |
| `Store.LinkStore.Resolve` | server.js:372-397 | a reserved name defers with no click; an unknown code is not-found with clicks unchanged; a known code appends exactly one click for the first matching link and redirects (301) to its long URL unchanged |

## Left out

- Express wiring, static file serving and MIME headers: framework plumbing
  (server.js:8-24). A code equal to a file name under `public/` would be
  served by the static middleware first. This is not modelled.
- Session cookies, the signing secret and the one-day session expiry
  (server.js:27-35). The session is an explicit value. The `email` it
  carries is kept but never read.
- The page routes `/`, `/login`, `/signup`, `/dashboard` and `/admin`
  (server.js:400-433). They only send files or redirect to `/login`.
  `Resolve` answers `Defer` where the source calls `next()`.
- The health endpoint, console logging and `app.listen` (server.js:57-59,
  436-460): I/O.
- `Math.random` is a parameter: the six draws are reals in [0, 1). The
  rounding of the double-precision product is not modelled.
- Base URL selection from `BASE_URL` / `RAILWAY_PUBLIC_DOMAIN`, including
  the operator-precedence quirk of server.js:229-231: the base is a
  parameter.
- `Views.StatsOf`: `newUsersToday` compares calendar days through a
  supplied `dayOf` function. The local time-zone rule behind
  `toDateString` is not modelled.
- Timestamps are integer milliseconds and not ISO strings. The trial end
  at signup is `now + 30 × 86 400 000` ms. `setDate(getDate() + 30)` moves
  by 30 calendar days, which differs by an hour across a daylight-saving
  change. This difference is not modelled.
- `Trial.CeilDays` uses exact integer ceiling division where the source
  divides in floating point before `Math.ceil`. The two agree on
  whole-millisecond inputs of this size. Floating point is not modelled.
- A missing request-body field (undefined, null or empty) is the empty
  string. A missing `name` is stored as the empty string. A missing `plan`
  in the plan update (stored as `undefined` by the source) is not
  modelled.
- `Store.LinkStore.DeleteUrl`, `Store.LinkStore.SetPlan`: the path `id` is
  taken as an already-converted integer. JavaScript's loose `==` between a
  string and a number (`"03" == 3`, a non-numeric string matching nothing)
  is not modelled.
- Concurrency: none is modelled. Each handler is one atomic step, as on
  the single-threaded event loop.
