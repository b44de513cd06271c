# HRMS documents, time off, work logs and the organisation form, in Dafny

This project models four parts of the HRMS application:

- **The document service** (`DocumentService` with the modules `StorageLocations` and `StorageDisks`):
  - It picks the storage location an upload goes to, from the uploader's organisation and company.
  - It registers a dynamic Wasabi or AWS S3 disk for that location.
  - It writes the file under `owner_type/owner_id/year/uuid.extension` and then creates the `documents` row.
  - Later it deletes, renames, downloads or hands out a URL for a document through the disk of the document's own location.
- **The time-off request API** (`TimeOff`): submitting a request creates it as pending. Editing and deleting are allowed only while it is pending. Approval and decline record the approver. The yearly balance per active category sums the approved days.
- **The work-log API** (`WorkLogs`):
  - store, clockIn and bulkStore upsert on the key (staff member, log date); clockOut and update change one existing row.
  - The attendance summary counts and sums the logs of one staff member over a date range.
- **The organisation form** (`OrganizationForm`): `handleChange` and `validateForm` of the React page, as state updates on a class.

State that the services keep in databases becomes fields of classes: `DocumentStore`, `TimeOffRequestTable`, `WorkLogTable` and `OrganizationFormState`.
- A table is a `seq` in table order, so `first()` is "the first row that matches".
- The document storage, the `documents` table and the run-time disk configuration are `map`s.

The following are parameters of the operations that use them:
- the clock (today, the current time and year);
- the authenticated user;
- the request IP;
- the generated UUID;
- the outcome of each storage write.

Dates are day numbers. `Calendar.YearOfDay` turns a day number into its civil year, for `whereYear`. It splits the date into 400-year Gregorian cycles of 146097 days, counted from 2000-01-01, and walks the years of one cycle. `Calendar.YearOfDayIff` proves, for every day, that it gives the year whose 1 January is on or before the day and that has not yet ended.

**The resolver does not do what its doc comment says.**
- The doc comment at `hrms/app/Services/DocumentService.php:111` promises the priority org > company > default, and the comment at `hrms/app/Services/DocumentService.php:142` adds any local location as the last fallback.
- The code calls `where` on ONE shared query builder, so each step's clauses are added to those of the earlier steps:
  - After an organisation miss, the company step still requires the organisation id. It can only miss as well.
  - The global step adds `whereNull` on a column an earlier step already fixed to a value, so it also misses.
  - The local fallback refines the global step, so it never returns anything the global step did not.
- The model follows the code:
  - `StorageLocations.Resolved` is the closed form of what the code returns.
  - `StorageLocations.DocumentedPriority` is the commented priority.
  - `CompanyFallbackScenario` gives two rows on which the two disagree.
  - `ResolvedAgreesWithDocumented` proves that they never disagree when the code does find a location.

## Model

| member | source | states |
|---|---|---|
| StorageLocations.DetermineStorageLocation | hrms/app/Services/DocumentService.php:113-144 | the loop over the growing builder returns the first hit of the cumulative step queries; that equals `Resolved` (only the first filled identifier decides), and a returned location is a table row |
| StorageLocations.AsWrittenIsResolved | hrms/app/Services/DocumentService.php:113-144 | running the cumulative step queries in order gives exactly the closed form `Resolved` |
| StorageLocations.FirstHitSkipsMisses | hrms/app/Services/DocumentService.php:118-143 | when every step before k misses and step k hits (or is the last), the resolver returns step k's row |
| StorageLocations.FirstHitMissesAll | hrms/app/Services/DocumentService.php:118-143 | the resolver returns null exactly when every step's `first()` finds nothing |
| StorageLocations.FirstHitFromSomeQuery | hrms/app/Services/DocumentService.php:118-143 | a location the resolver returns is the `first()` of one of its steps |
| StorageLocations.StepQueriesGrow | hrms/app/Services/DocumentService.php:115-143 | each step's query contains all the clauses of the step before it (one shared builder) |
| StorageLocations.RefinedQueryMisses | hrms/app/Services/DocumentService.php:127-143 | adding clauses to a query that found nothing still finds nothing |
| StorageLocations.ClashingClausesMiss | hrms/app/Services/DocumentService.php:134-136 | a query with `where(c, v)` and `whereNull(c)` on the same column finds no row |
| StorageLocations.OrgMatchWins | hrms/app/Services/DocumentService.php:118-122 | with an organisation id and a row for it, the result is the first such row, at or before that row |
| StorageLocations.OrgMissBlocksEverything | hrms/app/Services/DocumentService.php:118-143 | with an organisation id that no row has, the resolver returns null whatever the company and default rows are |
| StorageLocations.CompanyMissBlocksDefault | hrms/app/Services/DocumentService.php:126-143 | with no organisation id and a company id no row has, the resolver returns null even when a default row exists |
| StorageLocations.FirstHitDropLast | hrms/app/Services/DocumentService.php:142-143 | a last step that can only miss when the step before misses never changes the result |
| StorageLocations.LocalFallbackNeverDecides | hrms/app/Services/DocumentService.php:142-143 | the "any local storage" fallback never changes what the resolver returns |
| StorageLocations.ResolvedAgreesWithDocumented | hrms/app/Services/DocumentService.php:109-144 | whenever the code finds a location, the commented priority would pick the same one |
| StorageLocations.CompanyFallbackScenario | hrms/app/Services/DocumentService.php:109-131 | organisation 7 without a location and company 3 with one: the commented priority picks the company's location, the code returns null |
| StorageLocations.FirstIndex | hrms/app/Services/DocumentService.php:119 | `first()`: the lowest index whose row satisfies every clause, or none when no row does |
| StorageDisks.StorageTypeName | hrms/app/Services/DocumentService.php:149-157 | 1, 2 and 3 name local, wasabi and aws; "unknown" is returned exactly for every other type |
| StorageDisks.PlanDisk | hrms/app/Services/DocumentService.php:162-216 | the only failures are a Wasabi or AWS location without its config; those two types get the dynamic disk `dynamic_disk_<type>_<id>` with the s3 driver; every other type gets `public` |
| StorageDisks.PublicDiskForLocalAndUnknown | hrms/app/Services/DocumentService.php:167-215 | local and unknown types use the `public` disk and register nothing |
| StorageDisks.WasabiDisk | hrms/app/Services/DocumentService.php:173-193 | a Wasabi location registers an s3 disk with the config's key, secret, region and bucket, the endpoint `https://s3.<region>.wasabisys.com`, no path-style endpoint, and throwing on errors |
| StorageDisks.AwsDisk | hrms/app/Services/DocumentService.php:196-212 | an AWS location registers an s3 disk with the config's key, secret, region and bucket, no endpoint, and throwing on errors |
| StorageDisks.MissingConfigRefused | hrms/app/Services/DocumentService.php:175-200 | a missing Wasabi or AWS config fails with the error naming the location id |
| StorageDisks.DynamicDiskNamesUnique | hrms/app/Services/DocumentService.php:165 | two cloud locations that get the same dynamic disk name have the same type and the same id |
| Text.NatToString | hrms/app/Services/DocumentService.php:39 | the decimal year is a non-empty string of digits, one digit long exactly below 10 |
| Text.NatToStringInjective | hrms/app/Services/DocumentService.php:39 | different years give different path segments |
| DocumentService.StorageKeyParts | hrms/app/Services/DocumentService.php:35-40 | the storage key splits at '/' into owner type, owner id, year and `uuid.extension` when those hold no '/' |
| DocumentService.StorageKeysDistinct | hrms/app/Services/DocumentService.php:35-40 | equal storage keys come from the same owner type, owner id, year and file name |
| DocumentService.LocationById | hrms/app/Services/DocumentService.php:253 | `$document->location`: a table row with that id, or none only when no row has that id |
| DocumentService.LocationByIdFindsResolved | hrms/app/Services/DocumentService.php:253 | with unique location ids, the location an upload recorded is found again by its id |
| DocumentService.DocumentStore.constructor | hrms/app/Services/DocumentService.php:13-14 | a store over a location table with unique ids starts with no disks, objects or documents |
| DocumentService.DocumentStore.ConfigureDisk | hrms/app/Services/DocumentService.php:162-216 | returns `PlanDisk`'s disk name and registers a dynamic disk's config; on a missing config it fails and registers nothing |
| DocumentService.DocumentStore.ResolveDisk | hrms/app/Services/DocumentService.php:21-32 | no location fails with 'No storage location configured'; a missing config fails with that error; otherwise the resolved location and its registered disk |
| DocumentService.DocumentStore.Upload | hrms/app/Services/DocumentService.php:19-107 | every error path (no location, missing config, unopenable file, S3 or other write exception) leaves the objects and the documents unchanged; a successful write stores the bytes under `(disk, key)` and creates exactly one new row with the resolved location, owner, key, name (given or original), size, extension and MIME type |
| DocumentService.DocumentStore.WriteThenRecord | hrms/app/Services/DocumentService.php:43-106 | the row is created only after the write returned; an S3 error keeps the AWS code ("Unknown" if absent) and message, any other exception gives "Storage Error: " and its cause |
| DocumentService.DocumentStore.LocationDisk | hrms/app/Services/DocumentService.php:253-256 | the document's location and its configured disk, or the error of a missing location or config, registering nothing on error |
| DocumentService.DocumentStore.Delete | hrms/app/Services/DocumentService.php:250-263 | an unknown id fails (findOrFail); otherwise the object at `(disk, doc_url)` is removed if present, the row is removed, and true is returned; on error nothing is removed |
| DocumentService.DocumentStore.UpdateMetadata | hrms/app/Services/DocumentService.php:237-245 | only the name and the type change; each keeps its old value when not given; an unknown id fails and changes nothing |
| DocumentService.DocumentStore.Download | hrms/app/Services/DocumentService.php:287-301 | the bytes stored under the document's key on ITS location's disk, or 'File not found in storage' when there are none |
| DocumentService.DocumentStore.GetDocumentUrl | hrms/app/Services/DocumentService.php:268-282 | a local location gets the public URL of the key; any other gets a 60-minute temporary URL on its own disk; a missing location or disk configuration is an error that registers no disk |
| DocumentService.UploadThenDownload | hrms/app/Services/DocumentService.php:287-296 | downloading a document right after a successful upload returns exactly the uploaded bytes |
| DocumentService.DeleteTwice | hrms/app/Services/DocumentService.php:250-263 | after a successful delete the row is gone and a second delete fails with not found |
| Calendar.JanFirstNext | hrms/app/Http/Controllers/Api/TimeOffRequestController.php:134 | each year begins where the one before it ends: 1 January of y + 1 is 1 January of y plus the length of y (365, or 366 in a Gregorian leap year) |
| Calendar.DaysOfYear | hrms/app/Http/Controllers/Api/TimeOffRequestController.php:134 | every day from 1 January of y to the last day of y has year y |
| Calendar.YearOfDayBounds | hrms/app/Http/Controllers/Api/TimeOffRequestController.php:134 | for every day, the year given begins on or before that day and has not ended by it |
| Calendar.YearOfDayIff | hrms/app/Http/Controllers/Api/TimeOffRequestController.php:134 | for every day and year: the day has that year exactly when it lies between 1 January of the year and the year's end |
| Calendar.JanFirstInYear | hrms/app/Http/Controllers/Api/TimeOffRequestController.php:134 | for every year, its 1 January lies in that year |
| Calendar.DayBeforeJanFirst | hrms/app/Http/Controllers/Api/TimeOffRequestController.php:134 | for every year, the day before its 1 January lies in the year before |
| Calendar.DaysBeforeStep | hrms/app/Http/Controllers/Api/TimeOffRequestController.php:134 | one more year of a 400-year cycle adds exactly that year's length, 366 in a Gregorian leap year and 365 otherwise |
| Calendar.EpochYear | hrms/app/Http/Controllers/Api/TimeOffRequestController.php:134 | day 0 lies in 1970 |
| Calendar.DayBeforeEpochYear | hrms/app/Http/Controllers/Api/TimeOffRequestController.php:134 | day -1 lies in 1969 |
| Calendar.LastDayOf1970Year | hrms/app/Http/Controllers/Api/TimeOffRequestController.php:134 | day 364 (31 December 1970) lies in 1970 |
| Calendar.FirstDayOf1971Year | hrms/app/Http/Controllers/Api/TimeOffRequestController.php:134 | day 365 (1 January 1971) lies in 1971 |
| Calendar.LeapDay1972Year | hrms/app/Http/Controllers/Api/TimeOffRequestController.php:134 | day 789 (29 February 1972) lies in 1972 |
| Calendar.LastDayOf1972Year | hrms/app/Http/Controllers/Api/TimeOffRequestController.php:134 | day 1095 (31 December 1972, a leap year) lies in 1972 |
| Calendar.LastDayOf2025Year | hrms/app/Http/Controllers/Api/TimeOffRequestController.php:134 | day 20453 (31 December 2025) lies in 2025 |
| Calendar.FirstDayOf2026Year | hrms/app/Http/Controllers/Api/TimeOffRequestController.php:134 | day 20454 (1 January 2026) lies in 2026 |
| TimeOff.ParseAction | hrms/app/Http/Controllers/Api/TimeOffRequestController.php:96 | only "approved" and "declined" are accepted, and neither means pending |
| TimeOff.ActiveCategories | hrms/app/Http/Controllers/Api/TimeOffRequestController.php:127 | exactly the active categories, none added |
| Http.BoundIndex | hrms/app/Http/Controllers/Api/TimeOffRequestController.php:65 | route-model binding, shared by both controllers: the position of a row whose key is the URL's id, or none only when no row has it |
| TimeOff.RemainingBounds | hrms/app/Http/Controllers/Api/TimeOffRequestController.php:141 | `max(0, quota - used)`: never negative, quota minus used when that is not negative, otherwise 0 |
| TimeOff.UsedAppend | hrms/app/Http/Controllers/Api/TimeOffRequestController.php:131-135 | the used days of a table with one more request grow by exactly that request's contribution |
| TimeOff.UsedUpdate | hrms/app/Http/Controllers/Api/TimeOffRequestController.php:131-135 | replacing one request changes the used days by the new contribution minus the old |
| TimeOff.UsedRemove | hrms/app/Http/Controllers/Api/TimeOffRequestController.php:131-135 | removing one request lowers the used days by exactly its contribution |
| TimeOff.StoreKeepsBalance | hrms/app/Http/Controllers/Api/TimeOffRequestController.php:46-48 | a newly submitted (pending) request never changes any balance |
| TimeOff.ApprovalAddsDays | hrms/app/Http/Controllers/Api/TimeOffRequestController.php:100-105 | approving a pending request adds its total days to the used days of its staff member, category and start year |
| TimeOff.DeclineAfterApprovalReturnsDays | hrms/app/Http/Controllers/Api/TimeOffRequestController.php:100-105 | declining an approved request gives its days back |
| TimeOff.DestroyKeepsBalance | hrms/app/Http/Controllers/Api/TimeOffRequestController.php:156-163 | deleting a pending request never changes any balance |
| TimeOff.TimeOffRequestTable.constructor | hrms/app/Http/Controllers/Api/TimeOffRequestController.php:36-48 | an empty request table over the given staff and categories |
| TimeOff.TimeOffRequestTable.Store | hrms/app/Http/Controllers/Api/TimeOffRequestController.php:36-55 | succeeds exactly when the staff member and category exist and both dates are given with end >= start; the new row is appended as pending with the request's fields, the given total days and the author, with no approval data; a validation error changes nothing |
| TimeOff.TimeOffRequestTable.Update | hrms/app/Http/Controllers/Api/TimeOffRequestController.php:65-88 | 404 for an unknown id; 422 'Cannot modify a processed request' unless pending; a sent field replaces the old value, a null reason clears it, and nothing else changes; succeeds exactly when pending and no sent rule fails |
| TimeOff.TimeOffRequestTable.ProcessApproval | hrms/app/Http/Controllers/Api/TimeOffRequestController.php:93-112 | whatever the current status, a valid action sets it and records the approver, the remarks (null when absent) and the time; an invalid action changes nothing |
| TimeOff.TimeOffRequestTable.Destroy | hrms/app/Http/Controllers/Api/TimeOffRequestController.php:154-169 | a pending request is removed with nothing else changing; a processed one is refused with 422 'Cannot delete a processed request' |
| TimeOff.TimeOffRequestTable.GetBalance | hrms/app/Http/Controllers/Api/TimeOffRequestController.php:117-152 | fails exactly for a missing or unknown staff member; otherwise the given or current year and one entry per active category, in order, with its quota, the approved days of that year and `max(0, quota - used)` |
| WorkLogs.ParseStatusNames | hrms/app/Http/Controllers/Api/WorkLogController.php:42 | the accepted status strings are exactly the five names, and each parses to its own status |
| WorkLogs.ApplyReflects | hrms/app/Http/Controllers/Api/WorkLogController.php:53-59 | `fill`: every column that is sent takes its value; the id and the key never change; sending nothing leaves the row as it was |
| WorkLogs.FindKey | hrms/app/Http/Controllers/Api/WorkLogController.php:118-120 | `where(staff)->where(date)->first()`: the first row with that key, or none only when no row has it |
| WorkLogs.UniqueKeyCount | hrms/app/Http/Controllers/Api/WorkLogController.php:53-59 | in a table kept by the upserts, a key occurs once if it is found at all, and otherwise never |
| WorkLogs.UpsertEffect | hrms/app/Http/Controllers/Api/WorkLogController.php:53-59 | one `updateOrCreate` keeps the table valid and leaves exactly one row with the key; that row is the old row or a new row of NULLs with the values applied; every other key keeps its row |
| WorkLogs.UpdateInPlace | hrms/app/Http/Controllers/Api/WorkLogController.php:129-132 | updating an existing row in place keeps the table valid and the rows' keys |
| WorkLogs.AppendNew | hrms/app/Http/Controllers/Api/WorkLogController.php:53-59 | creating the row for a key not yet in the table keeps the table valid, puts the row last where its key finds it, and changes no other key's row |
| WorkLogs.UpsertAllValid | hrms/app/Http/Controllers/Api/WorkLogController.php:156-165 | a whole batch of upserts keeps the table valid |
| WorkLogs.LastEntryWins | hrms/app/Http/Controllers/Api/WorkLogController.php:156-165 | after a batch, a key's row holds every value of the last entry with that key |
| WorkLogs.UntouchedKeysKeepRows | hrms/app/Http/Controllers/Api/WorkLogController.php:156-165 | a key no entry of the batch mentions keeps its row |
| WorkLogs.OwnKeyFindsRow | hrms/app/Http/Controllers/Api/WorkLogController.php:215-228 | in a valid table every row is the one its own key finds |
| WorkLogs.ValidateStore | hrms/app/Http/Controllers/Api/WorkLogController.php:39-52 | valid exactly when the staff member exists, a date and one of the five statuses are given, each clock time sent is H:i and each minute value sent is >= 0; the values then hold the parsed status, the author and no IP |
| WorkLogs.BulkChanges | hrms/app/Http/Controllers/Api/WorkLogController.php:148-157 | an entry's values set the status and the author, and nothing that the rules do not name (no minutes or notes) |
| WorkLogs.AllBulkChanges | hrms/app/Http/Controllers/Api/WorkLogController.php:156-164 | one values array per entry, in input order |
| WorkLogs.ValidateUpdate | hrms/app/Http/Controllers/Api/WorkLogController.php:217-226 | valid exactly when the status is absent or one of the five statuses (not null), each clock time sent is H:i and each minute value sent is >= 0; the values never touch the author or the IPs, and set the status exactly when it was sent |
| WorkLogs.StaffOfUser | hrms/app/Http/Controllers/Api/WorkLogController.php:73 | `first()`: the first staff row belonging to the user (no earlier row belongs to them), or none only when no staff row belongs to the user |
| WorkLogs.BulkLastEntryWins | hrms/app/Http/Controllers/Api/WorkLogController.php:144-171 | of several entries for one staff member and day, the last decides the status, the sent or nulled clock times, and the author |
| WorkLogs.WorkLogTable.constructor | hrms/app/Http/Controllers/Api/WorkLogController.php:37-59 | an empty, valid work-log table over the given staff |
| WorkLogs.WorkLogTable.UpdateOrCreate | hrms/app/Http/Controllers/Api/WorkLogController.php:53-59 | the table becomes `Upsert` of the old one; the row returned is the one its key now finds; it holds the values; the key occurs once |
| WorkLogs.WorkLogTable.Store | hrms/app/Http/Controllers/Api/WorkLogController.php:37-66 | a validation error changes nothing; otherwise one upsert on (staff member, date) whose row holds every validated value and the author |
| WorkLogs.WorkLogTable.ClockIn | hrms/app/Http/Controllers/Api/WorkLogController.php:71-101 | 404 'Staff member not found' and no change without a staff member; otherwise today's row becomes present with the time, the IP and the author |
| WorkLogs.WorkLogTable.ClockOut | hrms/app/Http/Controllers/Api/WorkLogController.php:106-139 | 404 without a staff member; 422 'No clock in record found for today' without today's row; otherwise only that row's clock-out time and IP change |
| WorkLogs.WorkLogTable.BulkStore | hrms/app/Http/Controllers/Api/WorkLogController.php:144-172 | an empty or invalid batch is refused before any write; otherwise the entries are upserted in input order and one row per entry is returned: the row the entry's key finds right after the entry's own upsert, holding the entry's values |
| WorkLogs.WorkLogTable.UpsertEach | hrms/app/Http/Controllers/Api/WorkLogController.php:155-165 | the loop leaves the table equal to `UpsertAll` of the items and collects, for item k, the row its key finds after the first k + 1 upserts, holding item k's values |
| WorkLogs.WorkLogTable.Update | hrms/app/Http/Controllers/Api/WorkLogController.php:215-235 | 404 for an unknown id; a validation error changes nothing; otherwise only that row changes, by exactly the validated values, and its id and key stay |
| WorkLogs.PeriodLogs | hrms/app/Http/Controllers/Api/WorkLogController.php:185-187 | exactly the staff member's rows dated within the period (inclusive) |
| WorkLogs.Summarize | hrms/app/Http/Controllers/Api/WorkLogController.php:177-205 | accepted exactly when the staff member exists and both dates are given with end >= start; then total_days is end - start + 1 |
| WorkLogs.StatusCountsPartition | hrms/app/Http/Controllers/Api/WorkLogController.php:191-195 | the five status counts add up to the number of logs, and none exceeds it |
| WorkLogs.SumMinutesNonNegative | hrms/app/Http/Controllers/Api/WorkLogController.php:196-198 | minute totals are never negative when no stored minute value is (NULL counts as 0) |
| WorkLogs.PeriodBeforeStartIsEmpty | hrms/app/Http/Controllers/Api/WorkLogController.php:185-187 | a period that ends before it starts holds no logs |
| WorkLogs.PeriodLastDay | hrms/app/Http/Controllers/Api/WorkLogController.php:185-187 | extending a period by one day adds exactly the rows of that day |
| WorkLogs.PeriodLogsFitDays | hrms/app/Http/Controllers/Api/WorkLogController.php:185-190 | with one log per staff member and day, a period never holds more logs than it has days |
| WorkLogs.SummaryBounds | hrms/app/Http/Controllers/Api/WorkLogController.php:177-205 | on a valid table the status counts add up to the period's logs, none exceeds total_days, and the minute totals are not negative |
| OrganizationForm.Trim | frontend-v2/src/pages/organization/OrganizationForm.tsx:79 | `trim()`: a slice of the input with only white space cut away at either end, and no white space at either end of a non-empty result |
| OrganizationForm.BlankIffTrimEmpty | frontend-v2/src/pages/organization/OrganizationForm.tsx:79 | the trimmed name is empty exactly when every character is JavaScript white space |
| OrganizationForm.ValidEmailIffPattern | frontend-v2/src/pages/organization/OrganizationForm.tsx:83 | the executable check accepts exactly the strings matching `^[^\s@]+@[^\s@]+\.[^\s@]+$` |
| OrganizationForm.AcceptedEmailShape | frontend-v2/src/pages/organization/OrganizationForm.tsx:83 | an accepted email has no white space and exactly one '@', and after the '@' a '.' with a character on each side |
| OrganizationForm.ComputeErrors | frontend-v2/src/pages/organization/OrganizationForm.tsx:76-85 | only name and email errors; a name error exactly when the name is blank; an email error exactly when the email is non-empty and does not match; each with its message |
| OrganizationForm.FormAccepted | frontend-v2/src/pages/organization/OrganizationForm.tsx:76-99 | the form passes exactly when the name has a non-white-space character and the email is empty or matches |
| OrganizationForm.EmptyEmailNoError | frontend-v2/src/pages/organization/OrganizationForm.tsx:83 | an empty email never produces an email error |
| OrganizationForm.ChangeFieldEffect | frontend-v2/src/pages/organization/OrganizationForm.tsx:68-74 | a change sets the named field and no other; it leaves that field's error falsy and every other error as it was |
| OrganizationForm.OrganizationFormState.constructor | frontend-v2/src/pages/organization/OrganizationForm.tsx:27-35 | the five fields start empty and there are no errors |
| OrganizationForm.OrganizationFormState.HandleChange | frontend-v2/src/pages/organization/OrganizationForm.tsx:68-74 | the new form and errors are `ChangeField` of the old ones |
| OrganizationForm.OrganizationFormState.ValidateForm | frontend-v2/src/pages/organization/OrganizationForm.tsx:76-99 | the form data stays valid, the errors are replaced by the computed ones, and the result is true exactly when there are none |

## Left out

- File I/O and SDK calls are not modelled: opening the stream, the write itself, the S3 client and signing the temporary URL. Whether `fopen` succeeds and how `writeStream` ends are parameters. A URL is returned as its kind, disk, key and lifetime.
- A `false` return from `writeStream` is not modelled. With `throw => true` the cloud disks throw instead. The `public` disk can return false, and the code then records the row anyway; this model treats every write as either written or thrown.
- Logging (`\Log::info`, `\Log::error`) and the storage type name computed only for those log lines are not modelled.
- The `with([...])` eager loads and the `load`/`fresh` of the responses are not modelled; they change no state.
- `getDocument` and `getAllDocuments` are not modelled. They are plain reads with no logic of their own.
- Document ids are handed out in order from a counter (auto-increment). The real id sequence and timestamps are not modelled.
- TimeOff.TimeOffRequestTable.Store: the request's `total_days` is never computed by the controller. It is filled in outside it (the TimeOffRequest model is not part of this model), so it is a parameter.
- TimeOff, WorkLogs: the `date` rule on date strings is not modelled; dates are already day numbers.
- WorkLogs.TableValid, WorkLogs.UniqueKeyCount, WorkLogs.UpsertEffect, WorkLogs.PeriodLogsFitDays: requests are modelled one at a time, and `updateOrCreate` is treated as atomic. The table has no unique index on (staff member, date), so two concurrent upserts of a new key can both insert; that race is not modelled. The starting table is assumed to hold no duplicate keys.
- DocumentService.DocumentStore.WriteThenRecord: a failing `fopen` is modelled as returning false, giving "Storage Error: Unable to open file stream". Under Laravel's error handler the PHP warning becomes an `ErrorException` first, so the message is "Storage Error: " followed by PHP's own `fopen(...)` warning text. That text comes from the PHP runtime and is not modelled.
- Text.NatToString: `date('Y')` pads the year to at least four digits. The year is written here without padding, which differs only for years below 1000.
- The `index` and `show` actions of both controllers, and `destroy` of work logs, are not modelled. They are listing, pagination and plain reads or deletes, outside this model.
- WorkLogs.PeriodLogs: the `forPeriod` scope of the WorkLog model is not part of this model. It is taken to be the inclusive date range `start <= log_date <= end`.
- WorkLogs.Summarize: `diffInDays` on the parsed dates is taken as end minus start in days. The Carbon time-of-day and time-zone handling is not modelled.
- WorkLogs.ValidateStore, WorkLogs.ValidateUpdate, TimeOff.TimeOffRequestTable.Store: a failed validation reports the first failing field in rule order. Laravel collects every failing field; only the fact of failure and one field are modelled.
- OrganizationForm: React's asynchronous state and stale closures are not modelled (`handleChange` reads `formData` of the current render). Each call sees the state left by the previous one.
- OrganizationForm: the `toast` of a failed validation, `handleSubmit`, the fetch of an existing organisation and the rendering are not modelled. Only `handleChange` and `validateForm` are in this model.
- JavaScript strings are UTF-16; here a string is a sequence of `char`. White space is the set `\s` and `trim()` use: tab, line feed, vertical tab, form feed, carriage return, space, U+00A0, U+1680, U+2000-U+200A, U+2028, U+2029, U+202F, U+205F, U+3000 and U+FEFF.
