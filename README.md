# Helnay rentals: verified model of the request guards, the audit trail, backups and database set-up

Helnay is an Express/SQLite web site where guests browse holiday listings and book them, and where
administrators manage listings, bookings and users. This project models the parts of the site
that make decisions on their own, and proves what they promise:

- **Route guards** (`AuthMiddleware`). Signed-in users pass `isAuthenticated`. Only a session
  whose role is exactly `admin` passes `isAdmin`.
- **CSRF protection** (`CsrfMiddleware`). The double-submit token is created once per session.
  A token submitted in the form or in a header must equal it exactly. A bad-token error becomes
  a 403 page.
- **Input checks** (`SecurityMiddleware`).
  - `sanitizeDbParams` scrubs the characters `'`, `"`, `;` and `\` from string parameters.
  - The express-validator rules for registration, login, listings, bookings and contact forms,
    including the booking time format and the password policy.
  - The `handleValidationErrors` handler: JSON errors, re-rendering the right form, or a session
    error plus a redirect back.
- **Home-page search** (`ListingSearch`). The optional filters become a `WHERE` fragment whose
  `?` placeholders stay in step with the bound values.
- **Admin audit trail** (`ActivityLogger`).
  - The `activity_logs` row and its null-defaulting.
  - The client-address fallback chain.
  - The once-per-request logging wrapper `logAdminAction`, with its description table and
    target-id defaulting.
  - The paginated `getActivityLogs` query.
- **Backups** (`BackupScript`). Timestamped copies of the two databases are made. Rotation then
  deletes every `.db` file except the 30 newest.
- **Database set-up** (`SqlStore`, `DbInit`, `DbInitRun`). `init` creates tables, runs the
  add-column-if-missing migrations and seeds only empty tables. It also creates or promotes the
  super administrator. Running it again changes nothing.

Shared modules:

- `JsValues`: JavaScript values, truthiness, `||` and template-literal text.
- `Strings`: `trim`, `includes`, `join` and counting a character.
- `Express`: the session object and the ways a middleware can answer.

Clocks, random tokens, password hashes and the outcome of file-system calls are parameters.

The module for a file that changes state takes the same imperative form:

- the session is a class whose fields `csrfProtection` and `handleValidationErrors` write;
- a wrapped admin request is a class holding the `logged` flag;
- the backup directory is a class;
- the database is a class whose `Run` method executes one statement.

Each such method is proved against a pure function of the old state. The properties are proved
about those functions.

## Model

| member | source | states |
|---|---|---|
| AuthMiddleware.IsAuthenticated | auth-middleware.js:2-7 | The request goes on iff a session exists with a truthy `userId`; every other request is redirected to `/login`. |
| AuthMiddleware.IsAdmin | auth-middleware.js:10-25 | The request goes on iff a session exists with a truthy `userId` and role exactly `"admin"`; otherwise the answer is a 403 "Access denied. Admin only." |
| AuthMiddleware.AdminImpliesAuthenticated | auth-middleware.js:2-25 | Every request the admin guard admits is admitted by the sign-in guard too. |
| AuthMiddleware.OnlyExactAdminRole | auth-middleware.js:18-24 | Any role other than `"admin"`, `"super_admin"` included, gets the 403. |
| CsrfMiddleware.CsrfProtection | csrf-middleware.js:17-27 | An existing truthy token is kept; only a session without one gets the generated token; afterwards the session holds a truthy token and the page token equals it. |
| CsrfMiddleware.SubmittedToken | csrf-middleware.js:40 | The submitted token is the body's `_csrf` when truthy, else the `csrf-token` header when truthy, else the `x-csrf-token` header. |
| CsrfMiddleware.VerifyCsrfToken | csrf-middleware.js:33-53 | The request goes on iff its method is GET or HEAD, or the submitted token is truthy and strictly equal to the session token; otherwise a 403 page with the invalid-token message. |
| CsrfMiddleware.MissingTokenRejected | csrf-middleware.js:43-48 | A state-changing request with no token anywhere is refused, even when the session has no token either. |
| CsrfMiddleware.PassImpliesSessionToken | csrf-middleware.js:43-52 | A state-changing request that passes proves the session holds a token and the submitted one equals it. |
| CsrfMiddleware.BodyTokenShadowsHeaders | csrf-middleware.js:40-48 | A wrong truthy body token is refused even if a header carries the right one. |
| CsrfMiddleware.EchoedTokenAccepted | csrf-middleware.js:24-52 | A form echoing the token the page was given passes, whatever its method. |
| CsrfMiddleware.HandleCsrfError | csrf-middleware.js:58-67 | Only an error whose code is exactly `EBADCSRFTOKEN` becomes a 403 page; any other error is forwarded unchanged. |
| SecurityMiddleware.StripDangerous | security-middleware.js:256 | The scrubbed string contains no `'`, `"`, `;` or `\`, is a subsequence of the input (other characters kept in order) and has exactly as many characters as the input has non-scrubbed ones. |
| SecurityMiddleware.StripDangerousUnique | security-middleware.js:256 | Any clean subsequence keeping every other character is the scrubbed string: the scrubber is characterised by its contract. |
| SecurityMiddleware.StripDangerousClean | security-middleware.js:256 | A string without those four characters is left as it is. |
| SecurityMiddleware.StripDangerousIdempotent | security-middleware.js:256 | Scrubbing twice equals scrubbing once. |
| SecurityMiddleware.SanitizeDbParams | security-middleware.js:251-262 | A non-array is returned unchanged; an array keeps its length, each string element is scrubbed as above and every other element is unchanged. |
| SecurityMiddleware.SanitizeDbParamsIdempotent | security-middleware.js:251-262 | Sanitizing sanitized parameters changes nothing. |
| SecurityMiddleware.LettersAndSpacesScanAll | security-middleware.js:64 | The element-by-element scan for `^[a-zA-Z\s]+$` agrees with "non-empty and every character a letter or whitespace". |
| SecurityMiddleware.ValidatorLengthFormula | security-middleware.js:77 | The length `isLength` measures is the number of characters less the occurrences of U+FE0E and U+FE0F. |
| SecurityMiddleware.SelectorNotCounted | security-middleware.js:77 | Inserting a variation selector anywhere in a string leaves its measured length unchanged. |
| SecurityMiddleware.ValidatorLengthPlain | security-middleware.js:62 | A string without variation selectors measures exactly its number of characters. |
| SecurityMiddleware.RegisterNameRule | security-middleware.js:60-65 | The name chain yields no error iff the trimmed name has 2 to 100 characters, all ASCII letters or whitespace (such a name has no selectors, so its measured length is its character count). |
| SecurityMiddleware.RegisterNameEnds | security-middleware.js:60-65 | An accepted name's trimmed text begins and ends with an ASCII letter. |
| SecurityMiddleware.FirstMatch | security-middleware.js:79-83 | A class regex matches iff some character of the password is in the class: a match names such a position, and no match means no character is in it. |
| SecurityMiddleware.PasswordRule | security-middleware.js:76-84 | A password yields no error iff it measures at least 8 characters as `isLength` counts them (variation selectors left out), has an uppercase A-Z, a digit and one of `!@#$%^&*`; at most four messages ever result. |
| SecurityMiddleware.PasswordSelectorExample | security-middleware.js:76-78 | "Abcd1!" followed by a heart and U+FE0F has eight characters but measures seven, so it gets the length message. |
| SecurityMiddleware.TwoDigitsOfChars | security-middleware.js:153 | Two digit characters read as a number are printed back as the same two characters. |
| SecurityMiddleware.MatchedTimeIsClockTime | security-middleware.js:153 | A string matching the time pattern is H:MM or HH:MM for some hour below 24 and minute below 60. |
| SecurityMiddleware.ClockTimeMatches | security-middleware.js:153 | Every H:MM and HH:MM spelling of a time with hour below 24 and minute below 60 matches the pattern. |
| SecurityMiddleware.TimeFormatIsClockTime | security-middleware.js:152-154 | A check-in or check-out time is accepted iff it is such a clock time. |
| SecurityMiddleware.TimeFormatExamples | security-middleware.js:168-170 | "5:30", "23:59" and "09:05" pass; "24:00", "7:5" and "12:60" fail. |
| SecurityMiddleware.DecimalRoundTrip | security-middleware.js:125 | Reading back the decimal digits of a natural number gives that number. |
| SecurityMiddleware.ListingIdRule | security-middleware.js:124-126 | The decimal text of `n` passes the listing-id check iff `n >= 1`; a string of zeros never passes. |
| SecurityMiddleware.ZerosValue | security-middleware.js:125 | A string of zeros reads as 0. |
| SecurityMiddleware.TrimmedLengthErrors | security-middleware.js:128-131 | A trimmed length check yields no error iff the trimmed string's measured length (variation selectors left out) lies in the bounds, and otherwise exactly its one message. |
| SecurityMiddleware.BookingRule | security-middleware.js:123-171 | With clean email and date checks, a booking passes iff the listing id is an integer of at least 1, the trimmed name measures 2-100 characters (variation selectors left out) and both times are clock times. |
| SecurityMiddleware.ListingRule | security-middleware.js:99-121 | Price aside, a listing passes iff its trimmed title, description and location measure, variation selectors left out, within [5,200], [20,5000] and [2,200]. |
| SecurityMiddleware.LoginRule | security-middleware.js:87-97 | With a clean email check, a login passes iff the password is non-empty; an empty one gives exactly "Password is required". |
| SecurityMiddleware.ContactRule | security-middleware.js:173-190 | With a clean email check, a contact message passes iff the trimmed name measures 2-100 and the trimmed message 10-2000 characters, variation selectors left out. |
| SecurityMiddleware.TitleSelectorExample | security-middleware.js:100-103 | The title "Hi" plus a heart and U+FE0F measures four and fails the minimum of 5. |
| SecurityMiddleware.NameSelectorExample | security-middleware.js:128-131 | A booking name of a sun and U+FE0F measures one and fails the minimum of 2. |
| SecurityMiddleware.ChooseView | security-middleware.js:210-213 | The view is register, login, contact or bookings for the first of those path fragments the path contains, in that priority; none when it contains none. |
| SecurityMiddleware.HandleValidationErrors | security-middleware.js:194-248 | No errors: next and nothing changes. Otherwise: XHR or a JSON Accept gets a 400 with the errors; a missing Accept header throws; a chosen view re-renders with "❌ " and the messages joined by ", " (bookings also gets the listings and the selected id, or null); no view, or a failed listings query, sets `session.error` to the joined messages and redirects back. Only that path writes the session. |
| ListingSearch.Conditions | server.js:22-44 | The condition list has one entry per clause, each clause's SQL text, in order. |
| ListingSearch.PlaceholdersMatchBound | server.js:24-43 | Over clauses whose text has as many `?` as values, the `?` count of all conditions equals the number of bound values. |
| ListingSearch.ConditionPlaceholders | server.js:25-41 | The location, min-price and max-price conditions hold one `?` each; the text condition holds two. |
| ListingSearch.StepKeeps | server.js:24-43 | One `if (filter)` step keeps the clauses in step and adds one clause exactly when the filter is set. |
| ListingSearch.ClausesShape | server.js:24-43 | Each truthy filter adds exactly one clause and nothing else adds any; every clause is in step with its values; the `q` and `type` clauses bind one `%value%` pattern twice; there are no clauses iff no filter is set. |
| ListingSearch.ClausesOrder | server.js:24-43 | Clauses come in the order location, min_price, max_price, q, type: location's comes first when set, then min_price's; the type clause is last when set. |
| ListingSearch.StepSpec | server.js:24-43 | A step pushes the condition and its values exactly when the filter is set. |
| ListingSearch.PushWhen | server.js:24-43 | One imperative push step turns the arrays for the clauses so far into those for one more step. |
| ListingSearch.BuildFilter | server.js:21-44 | The pushes produce the fragment of the clauses and their values; the fragment is empty iff no filter is truthy, else starts with "WHERE "; its `?` count equals the number of values. |
| ListingSearch.WhereFragment | server.js:44 | The joined fragment is empty iff no filter is set, otherwise starts with "WHERE ", and has one `?` per value. |
| ListingSearch.WherePlaceholders | server.js:24-44 | The `WHERE` fragment has exactly as many `?` as there are bound values. |
| ListingSearch.StatementFree | server.js:47-49 | The fixed parts of the statement contain no `?`. |
| ListingSearch.ListingsSqlPlaceholders | server.js:47-50 | The full statement, with the fragment between `FROM listings l` and `ORDER BY created_at DESC`, has one `?` per value passed to `db.all`. |
| ActivityLogger.PlaceholdersCount | activity-logger.js:18-19 | The `VALUES` list for `n` columns holds exactly `n` placeholders. |
| ActivityLogger.InsertParams | activity-logger.js:20-30 | Nine values: the first five passed through; target type, target id and IP address kept when truthy and null otherwise; the creation time last. |
| ActivityLogger.InsertInStep | activity-logger.js:17-30 | The INSERT's placeholders match its nine values. |
| ActivityLogger.ClientIp | activity-logger.js:43-49 | The address is never empty, and it is the trimmed first `x-forwarded-for` entry whenever that is non-empty. |
| ActivityLogger.FirstNonEmpty | activity-logger.js:44-48 | The reference fallback chain never yields an empty address. |
| ActivityLogger.OrChainIsFirstNonEmpty | activity-logger.js:44-48 | The `a || b || c || d || 'unknown'` chain picks the first non-empty operand. |
| ActivityLogger.ClientIpIsFallbackChain | activity-logger.js:43-49 | The address is the first non-empty of the first forwarded hop, `x-real-ip`, the connection address and the socket address, or "unknown". |
| ActivityLogger.Table | activity-logger.js:68-86 | Every fixed entry of the description table is non-empty text, and every listed action type starts with a capital letter. |
| ActivityLogger.Describe | activity-logger.js:68-93 | There is no description to store exactly when the action is not in the table but names a member inherited from `Object.prototype`; otherwise the description is non-empty. |
| ActivityLogger.DescribeFixed | activity-logger.js:68-93 | A listed action without an id takes its table text. |
| ActivityLogger.DescribeTargeted | activity-logger.js:68-93 | A listed id-bearing action reads its table text, then `#` and the target id as a template literal prints it. |
| ActivityLogger.DescribeUnlisted | activity-logger.js:93 | An action that is neither in the table nor an `Object.prototype` name reads "<action> on <target type>". |
| ActivityLogger.DescribeInherited | activity-logger.js:68-93 | Each of the twelve `Object.prototype` names (`constructor`, `toString`, `__proto__`, ...) finds a method or object the INSERT cannot bind, so no description is stored. |
| ActivityLogger.BooleanIdUnbindable | activity-logger.js:17-30 | A target id of `true` reaches the INSERT unchanged, so its parameters hold a value better-sqlite3 cannot bind. |
| ActivityLogger.ResolveTargetId | activity-logger.js:95 | The stored target id is the truthy target id, else the truthy route id, else null; never another falsy value. |
| ActivityLogger.DefaultTo | activity-logger.js:64 | A default parameter replaces only `undefined`. |
| ActivityLogger.JsonTargetId | activity-logger.js:101-102 | The id logged from `res.json` is never undefined: the body's truthy `id`, else its `insertedId`, else null; null without a body. |
| ActivityLogger.AuditedRequest.constructor | activity-logger.js:56-62 | A wrapped request starts with the flag clear and nothing logged. |
| ActivityLogger.AuditedRequest.Params | activity-logger.js:64-93 | There is a parameter array to bind unless the action has no table entry and is an inherited `Object.prototype` name. |
| ActivityLogger.AuditedRequest.Rows | activity-logger.js:64-97 | `logActivity` writes at most one row, exactly when its parameters exist and none is a boolean, and that row is those parameters. |
| ActivityLogger.AuditedRequest.LogOnce | activity-logger.js:64-97 | Nothing is written once the request has logged or for a session that is not a signed-in admin; otherwise the flag is set and the row for the session at call time is written: exactly one row when there is a description to bind and no bound value is a boolean, else none, because the INSERT rejects and the catch swallows it. At most one row exists, and none before the flag is set. |
| ActivityLogger.AuditedRequest.Json | activity-logger.js:101-104 | `res.json` logs at most once, with the body's id. |
| ActivityLogger.AuditedRequest.Send | activity-logger.js:106-109 | `res.send` logs at most once, with no id. |
| ActivityLogger.AuditedRequest.Redirect | activity-logger.js:111-114 | `res.redirect` logs at most once, with no id. |
| ActivityLogger.SendDescribesNull | activity-logger.js:70-107 | Through `send` or `redirect`, an id-bearing description ends in "#null" while the stored target id still falls back to the route id. |
| ActivityLogger.SelectLogsFree | activity-logger.js:131 | The base query has no placeholder. |
| ActivityLogger.ByAdminOne | activity-logger.js:135 | The admin filter has one placeholder. |
| ActivityLogger.PageTwo | activity-logger.js:139 | The ordering and paging suffix has two placeholders. |
| ActivityLogger.ActivityLogsQuery | activity-logger.js:128-143 | The admin filter is added only for a truthy admin id; the values are `[admin_id?]` followed by limit and offset, which default to 100 and 0; the placeholders match the values. |
| BackupScript.Stamp | backup-script.js:30 | The timestamp keeps its length, every `:` and `.` becomes `-` and nothing else changes; no `:` or `.` is left. |
| BackupScript.BackupFilename | backup-script.js:29-32 | The name starts with "<db>_backup_" and ends with ".db", and has no `:` when the database name has none. |
| BackupScript.Put | backup-script.js:46 | Copying onto an existing name overwrites that entry in place; a new name is appended; other entries are untouched. |
| BackupScript.Backups | backup-script.js:61-62 | Rotation considers exactly the `.db` entries of the directory. |
| BackupScript.Insert | backup-script.js:68 | Inserting into a newest-first list keeps it newest-first and adds exactly the one entry. |
| BackupScript.SortNewestFirst | backup-script.js:68 | The sorted list is newest-first and a permutation of the backups. |
| BackupScript.ToDelete | backup-script.js:71-72 | Nothing is doomed with 30 or fewer backups; otherwise exactly the entries after the first 30. |
| BackupScript.RotationKeepsOthers | backup-script.js:61-77 | Rotation never deletes an entry that is not a `.db` file. |
| BackupScript.RotationUnderLimit | backup-script.js:71 | With 30 or fewer backups, rotation deletes nothing. |
| BackupScript.BackupNames | backup-script.js:62 | Every name among the backups ends in ".db". |
| BackupScript.RemovedWasDoomed | backup-script.js:68-77 | Every deleted entry sits at position 30 or later in the newest-first order. |
| BackupScript.KeptWasNewest | backup-script.js:68-77 | Every backup still present sits among the first 30 of the newest-first order. |
| BackupScript.RotationKeepsNewest | backup-script.js:68-77 | Every kept backup is at least as new as every deleted entry. |
| BackupScript.RotationLeavesAtMostThirty | backup-script.js:71-79 | After rotation exactly min(n, 30) backups remain, `n` being the number before. |
| BackupScript.PutKeepsUnique | backup-script.js:46 | Copying a file keeps directory names unique. |
| BackupScript.UnlinkStep | backup-script.js:73-76 | Deleting the next doomed file extends the deletions so far by that one name. |
| BackupScript.BackupDirectory.constructor | backup-script.js:61 | The directory as listed, with unique names. |
| BackupScript.BackupDirectory.BackupDatabase | backup-script.js:37-54 | Succeeds iff the source exists, the copy succeeds and its size can be read back; a missing source or a failed copy writes nothing; a successful copy puts the timestamped file in the directory, even when the size check then throws. |
| BackupScript.BackupDirectory.RotateBackups | backup-script.js:59-83 | Deleting one file at a time leaves the rotated directory; the reported total is min(n, 30) and is the number of backups left. |
| BackupScript.BackupDirectory.PerformBackup | backup-script.js:88-116 | Success iff both the helnay and the sessions backups succeed (copy and size check); rotation runs in every case, on the directory after whichever copies happened. |
| SqlStore.ColumnNames | db.js:89-90 | `PRAGMA table_info` mapped to names gives each column's name, in order. |
| SqlStore.RowOf | db.js:340-343 | An inserted row has exactly the table's columns, holding the given value where one is given. |
| SqlStore.FindByEmail | db.js:324 | The lookup finds a row iff some row has the email, and what it finds is such a row. |
| SqlStore.FindPromoted | db.js:329-332 | After the upgrade, the first row with the email is found with level super_admin and is active. |
| SqlStore.FindAppended | db.js:340-343 | Appending a row with the email to rows that lack it makes that row the one found. |
| SqlStore.Exec | db.js:63-343 | CREATE TABLE IF NOT EXISTS never fails and leaves an existing table alone; ADD COLUMN fails exactly on a missing table or an existing column; INSERT and UPDATE fail exactly when a named column is missing. |
| SqlStore.ExecFrame | db.js:63-343 | A statement touches only its own table and creates no other. |
| SqlStore.SelectByEmail | db.js:324 | The lookup errs iff the table has no email column; when nothing is found no row has the email; a found row is stored and has the email. |
| SqlStore.KeepsTrans | db.js:61-346 | "Every table, column and row count is kept" composes across steps. |
| SqlStore.ExecKeeps | db.js:63-343 | No statement `init` runs drops a table, a column or a row. |
| SqlStore.AddColumnShape | db.js:93-131 | ADD COLUMN appends the column last, keeps the rows and fills each with the column default. |
| SqlStore.InsertAddsOneRow | db.js:220-343 | A successful INSERT appends exactly one row and changes nothing else. |
| SqlStore.Database.constructor | db.js:25 | The connection starts on the given tables. |
| SqlStore.Database.Run | db.js:28-37 | `run` succeeds iff the statement does, and leaves the store the statement makes, or the old store on failure. |
| DbInit.Then | db.js:61-346 | After a rejected `await` nothing more runs; otherwise the statement's outcome decides success and the new store. |
| DbInit.ThenKeeps | db.js:61-346 | An awaited statement drops no table, column or row. |
| DbInit.AddIfMissingStep | db.js:92-105 | An add-if-missing step on an existing table succeeds and appends the column exactly when it was not in the `PRAGMA` snapshot; nothing else changes. |
| DbInit.AddAllMissingAdds | db.js:89-105 | The add-if-missing steps leave every listed column present, only extending the one table. |
| DbInit.AddAllMissingNoop | db.js:92-105 | Columns already present are not touched. |
| DbInit.AddAllMissingAfterFailure | db.js:88-108 | After a failed ALTER the remaining steps of the try block are skipped. |
| DbInit.AddIsActive | db.js:130-135 | A newly added `is_active` column, then the backfill, leave every user with `is_active = 1`. |
| DbInit.MigrateBookingsAdds | db.js:88-108 | After the bookings block, `payment_status`, `payment_intent_id` and `total_amount` are all present and the table is only extended. |
| DbInit.MigrateBookingsNoop | db.js:88-108 | With all three payment columns present, the bookings block changes nothing. |
| DbInit.MigrateUsersMissing | db.js:111-138 | With no users table the first ALTER fails, the error is caught and the store is unchanged. |
| DbInit.MigrateUsersAdds | db.js:111-138 | After the users block, `last_login`, `admin_level`, `created_by` and `is_active` are all present and the table is only extended. |
| DbInit.BackfillFindsNothing | db.js:131-134 | After ADD COLUMN with DEFAULT 1, the `WHERE is_active IS NULL` backfill finds no row to change. |
| DbInit.AddThenBackfill | db.js:131-134 | Adding a column with a default and backfilling its nulls leaves every row with the default. |
| DbInit.MigrateUsersActivates | db.js:130-135 | When `is_active` was missing, every existing user ends up with `is_active = 1`. |
| DbInit.AddAllMissingKeepsField | db.js:115-128 | The add-if-missing steps change no other field of any row. |
| DbInit.MigrateUsersKeepsActive | db.js:130-135 | When `is_active` already exists, no user's `is_active` value changes: the backfill runs only for a new column. |
| DbInit.FilterRows | db.js:212-247 | The filter seed holds exactly 21 rows. |
| DbInit.CategoryRows | db.js:249-269 | The browse-category seed holds exactly 4 rows. |
| DbInit.ListingRows | db.js:271-295 | The listing seed holds exactly 11 rows. |
| DbInit.ImagePairsShape | db.js:312-317 | After listing `k` the loop has written `k + min(k, 8)` images; listing `i` gets image `i-1` and, for `i <= 8`, image `(i+2) mod 11` right after it. |
| DbInit.ImagePairsListings | db.js:312-317 | Every image row belongs to one of the listings 1 to 11. |
| DbInit.SeededImageCount | db.js:298-317 | The image seed holds exactly 19 rows. |
| DbInit.InsertAllAfterFailure | db.js:220-244 | After a failed INSERT, the remaining inserts do not run. |
| DbInit.InsertAllAppend | db.js:220-244 | Running two batches of inserts is running their concatenation. |
| DbInit.InsertAllKeeps | db.js:220-244 | Inserts drop nothing. |
| DbInit.InsertAllFrame | db.js:220-244 | Successful inserts change only the rows of their table. |
| DbInit.InsertAllRows | db.js:220-244 | Successful inserts append one row per value map, in order. |
| DbInit.SeedSkipsNonEmpty | db.js:213-216 | A table that already has rows is not seeded. |
| DbInit.SeedFillsEmpty | db.js:213-247 | An empty table that is seeded holds exactly the seed rows, in order, and nothing else changes. |
| DbInit.UpsertPromotes | db.js:326-333 | A found administrator whose level is not super_admin is upgraded, with every user with that email, and nothing else changes. |
| DbInit.UpsertLeavesSuperAdmin | db.js:334-336 | A found super_admin is left alone. |
| DbInit.AdminValuesFacts | db.js:339-343 | The new administrator has the fixed email, role admin, level super_admin, `is_active = 1` and the hashed password. |
| DbInit.AdminRow | db.js:340-343 | The stored administrator row carries those values. |
| DbInit.UpsertInserts | db.js:337-345 | An absent administrator is inserted as exactly one new user at the end, and nothing else changes. |
| DbInit.UpsertKeepsPasswords | db.js:323-345 | However the upsert goes, no user disappears and no stored password changes. |
| DbInit.UpsertEstablishes | db.js:323-345 | A successful upsert leaves the administrator findable by email with level super_admin. |
| DbInit.CreateTablesFacts | db.js:63-210 | CREATE TABLE IF NOT EXISTS statements never fail, leave every existing table as it was and make every named table exist. |
| DbInit.CreateTablesNoop | db.js:63-210 | When all named tables exist, the CREATE statements change nothing. |
| DbInit.CreateTablesNew | db.js:63-210 | A table that did not exist is created empty with its declared columns. |
| DbInit.DefaultSeeds | db.js:212-317 | The seeds are 21 filter services, 4 browse categories and 11 listings. |
| DbInit.PreparedKept | db.js:61-346 | Keeping every table and column preserves the schema `init` sets up. |
| DbInit.SchemaStepsNoop | db.js:63-210 | On a prepared database the CREATE statements and both migration blocks change nothing. |
| DbInit.SeedingStepsNoop | db.js:212-345 | On an initialised database, none of the three seeding steps and no part of the upsert writes anything. |
| DbInit.InitializedIsFixpoint | db.js:61-346 | `init` on an initialised database resolves and leaves it exactly as it was. |
| DbInit.PreparedBeforeSeeding | db.js:63-210 | The schema part of `init` always succeeds. It leaves all nine tables with the migrated columns and drops nothing. |
| DbInit.InitEstablishes | db.js:61-346 | When `init` resolves, its database holds the schema, non-empty seeded tables and the super administrator. |
| DbInit.InitFreshResolves | db.js:61-346 | On a new, empty database `init` with the shipped seeds resolves and leaves it initialised. |
| DbInit.InitWithFresh | db.js:61-346 | On an empty database, any non-empty seeds whose rows name only declared columns make `init` resolve with an initialised database. |
| DbInit.FreshSchema | db.js:63-210 | On an empty database the schema part creates the seeded tables and the users table empty, with their declared columns. |
| DbInit.FreshEarly | db.js:63-84 | The early CREATEs on an empty database leave listings and bookings empty with their columns and create no later table. |
| DbInit.FreshMigrate | db.js:88-138 | On a newly created database both migration blocks change nothing. |
| DbInit.InsertAllOk | db.js:220-244 | Inserts into an existing table whose rows name only its columns all succeed. |
| DbInit.FreshSeeding | db.js:212-345 | On empty seeded tables, seeds that fit their columns make every seeding step and the upsert succeed. |
| DbInit.DefaultSeedsFit | db.js:212-317 | The shipped seed rows are non-empty and name only columns of their tables. |
| DbInit.InitWithIdempotent | db.js:61-346 | Running `init` again after it resolved, with any clock, hash and seeds, resolves and changes nothing. |
| DbInit.InitIdempotent | db.js:61-346 | A second `init` run on an already-initialised store adds, removes or alters no table, column or row. |
| DbInitRun.InsertRows | db.js:220-244 | The awaited inserts, one after another, end exactly as the insert chain does, stopping at the first failure. |
| DbInitRun.SeedImages | db.js:312-317 | The image loop writes exactly the image rows of the seed layout, stopping at the first failure. |
| DbInitRun.CreateTablesStep | db.js:63-210 | Running the CREATE statements leaves the store the CREATE chain makes. |
| DbInitRun.AddIfMissingStep | db.js:92-131 | One imperative add-if-missing step matches its pure definition. |
| DbInitRun.MigrateBookingsBlock | db.js:88-108 | The bookings try block leaves the store the bookings migration makes, failure included. |
| DbInitRun.MigrateUsersBlock | db.js:111-138 | The users try block leaves the store the users migration makes, failure included. |
| DbInitRun.SeedIfEmptyStep | db.js:213-247 | Count, then seed only an empty table, as the seeding function says. |
| DbInitRun.SeedListingsStep | db.js:272-321 | Listings and their images are seeded only into an empty listings table. |
| DbInitRun.UpsertStep | db.js:323-345 | The super-admin upsert matches its pure definition. |
| DbInitRun.CreateSchema | db.js:63-210 | The schema part of `init` leaves the store the schema function makes. |
| DbInitRun.InitFrom | db.js:61-346 | `init` with given seed rows ends as the pure composition says, and a success leaves an initialised database. |
| DbInitRun.Init | db.js:61-346 | `init()` resolves or rejects and leaves the database exactly as `InitState` says; when it resolves, the database is initialised. |
| Strings.TrimStart | activity-logger.js:44 | Leading whitespace is dropped: the result is a suffix, all dropped characters are whitespace and the result does not start with whitespace. |
| Strings.TrimEnd | activity-logger.js:44 | Trailing whitespace is dropped in the same way. |
| Strings.TrimProperties | security-middleware.js:61 | `trim()` never lengthens a string, leaves no whitespace at either end and is idempotent. |
| Strings.BeforeFirst | activity-logger.js:44 | `split(',')[0]`: a prefix of the header without a comma, followed by a comma when shorter than the header. |

## Left out

- The rate limiters (security-middleware.js:5-56): they count requests over time windows across
  concurrent requests.
- The express-validator checks whose meaning is not in these files are opaque inputs: their error
  messages are parameters. These are:
  - `isEmail`, `normalizeEmail` and `escape`;
  - `isDate`;
  - the price `isFloat`;
  - the past-date and date-order checks, which depend on the wall clock and JavaScript date
    parsing.
- `escape()` and `normalizeEmail()` rewrite the request body. Only the error list is modelled.
- `generateToken` (crypto randomness) is a parameter. `CsrfMiddleware.CsrfProtection` requires it
  to be the 64 hexadecimal digits that 32 random bytes give.
- `getActivityStats` is not modelled: it runs concurrent `Promise.all` queries over local-midnight
  dates.
- `logAdminAction` rebinds `res.json`, `res.send` and `res.redirect`. The model keeps only the
  `logged` flag, its guard and the row written. Two more parts are left out:
  - the promises are taken as running to completion one after another;
  - the INSERT's failure, caught and logged, is modelled where a value cannot be bound (no
    description, or a boolean); a missing table or a locked database is not.
- `logActivity`'s INSERT runs on better-sqlite3. `ActivityLogger.InsertParams` gives the values
  it binds. The column list is not re-derived as text; only the `VALUES` placeholders are.
- Request fields (`req.body`, `req.query`, `req.params`, headers) are taken as single values.
  `bodyParser.urlencoded` and Express's query parser turn a repeated key into an array, and the
  query parser turns a bracketed key into an object. Such inputs are not represented: for example
  `?location=a&location=b`, which binds `"%a,b%"` in the search, or a repeated `_csrf` field. This
  affects `ListingSearch.BuildFilter`, the elements of `SecurityMiddleware.SanitizeDbParams`,
  `CsrfMiddleware.SubmittedToken` and `SecurityMiddleware.HandleValidationErrors`.
- `getClientIP`: a missing `x-forwarded-for` is `None`. The `split` is over the whole header.
- `server.js` rendering, `app.listen`, start-up and the other routes. The search handler's
  `db.all` call and its 500 path are left out too. The model stops at the SQL text and the bound
  values.
- `SecurityMiddleware.HandleValidationErrors` differs from the handler in four ways:
  - the JSON answer carries the messages, where the handler sends the error objects;
  - `formData` and `message: null` are not part of the rendered data;
  - `selectedListingId` is the posted value itself, where the handler applies `parseInt`;
  - the listings query is a parameter (`None` when it rejects).
- `SecurityMiddleware.RegisterNameRule`: `\s` is the JavaScript whitespace set as `Strings.IsSpace`
  lists it, and `trim` strips the same set.
- `SecurityMiddleware.ListingIdRule`: `isInt({ min: 1 })` is validator.js code outside these files. It is
  modelled by validator.js's default integer syntax (an optional sign, then digits, leading zeros
  allowed) and the value bound.
- Backups:
  - the `fs` calls are modelled as parameters of the methods: whether the source exists, whether
    the copy succeeds, the ISO time and the new file's mtime;
  - `ensureBackupDir`, the file sizes and the console output are not modelled;
  - the catch around rotation is not modelled: an unreadable directory, a `statSync` that throws
    while listing, or an `unlinkSync` that throws part-way through (backup-script.js:73-82), which
    leaves the remaining old backups in place;
  - JavaScript's stable sort is modelled by a stable insertion sort on mtime.
- better-sqlite3 and SQLite themselves:
  - `SqlStore.Exec` models only the statements `init` runs;
  - `PRAGMA table_info` is the column-name list;
  - AUTOINCREMENT ids, `NOT NULL`, `UNIQUE`, foreign keys and column types are not enforced;
  - `SELECT COUNT(1)` is the row count;
  - the `get` by email returns the first matching row.
- In `init`:
  - `bcrypt.hash` is a parameter (`passwordHash`);
  - every `new Date().toISOString()` of one run is one parameter `now`;
  - seeded listing descriptions are kept as stored text values only;
  - the straight-line INSERT statements are run as a loop over the seed rows (`DbInitRun.InsertRows`);
  - the CREATE statements are run as a loop over the table list (`DbInitRun.CreateTablesStep`);
  - console logging is not modelled.
- The users migration (db.js:111-138) runs before `CREATE TABLE users` (db.js:154). On a new
  database the first ALTER therefore fails, the catch swallows it, and the CREATE makes all the
  columns. The model follows the code in this order.
- The `is_active` backfill (db.js:134) can never change a row. `ADD COLUMN ... DEFAULT 1` has
  already filled every existing row. `DbInit.BackfillFindsNothing` states this.
- Not modelled: email-service.js, s3-backup.js, the scripts directory and the one-off maintenance
  and diagnostic scripts. They are SMTP, AWS and console I/O with no decision logic of their own.
