# Food-rescue CRM reconciliation: a verified model

The system keeps a CRM in step with the operations ("admin") tool of a food-rescue
organisation. It reads the admin tool's exported reports and the CRM's current
records. It then works out which food donors, nonprofit partners, volunteers and
food rescues the CRM does not hold yet, and uploads them. A parent account is
always uploaded before its children. Each rescue is linked by name to its donor,
partner and volunteer. A few read-only helper tools report duplicate CRM records,
overdue rescues nobody closed, and completed rescues that only one side knows
about. A small dialog lets the operator pick a task and its report files.

This project models the data logic of `functions.py` and the dialog state of
`gui.py` in Dafny, and proves what that logic promises.

Tables are sequences of typed records whose cells are `Option<string>` (None is
pandas' NaN). CRM Ids are plain strings, because a CRM query always returns an Id.

The modules:

- **Tables** (`tables.dfy`): the pandas operations the code is built from.
  - `Filter` is boolean indexing.
  - `Dedup` is `drop_duplicates`.
  - `LeftJoin` is `pd.merge(..., how='left')`. It is modelled literally, with one
    output row per matching right row.
  - `Unmatched` is the `Id.isnull()` filter that follows a left merge.
  - `Matched` is a `notnull()` filter on a right-hand column.
  - The module proves that a left merge followed by `isnull()` is an anti-join,
    and that a left merge followed by `notnull()` is an inner join.
- **Names** (`names.dfy`): `cleanupNameWhitespace` and Python's
  `' '.join(str(x).split())`. Python's whitespace set is spelt out, and a null
  cell becomes `"nan"`.
- **Order** (`order.dfy`): the order `sort_values` and `groupby` put text keys in.
  Strings compare code point by code point, and nulls sort last.
- **Accounts** (`accounts.dfy`): `uploadAccounts`. It finds the new accounts, then
  applies the three-way parent rule that fills the two upload batches. The
  first-batch de-duplication follows, and last the Parent Id look-up against the
  CRM snapshot taken after the first batch is in.
- **Volunteers** (`volunteers.dfy`): `uploadVolunteers`. It finds the new
  volunteers and splits each full name into a first and a last name.
- **Rescues** (`rescues.dfy`): `uploadNewFoodRescues` and `uploadFoodRescues`.
  New rescues are found by the key triple (Rescue ID, Food Type, Weight). Closed
  rescues are then linked to donors, partners and volunteers.
- **Finders** (`finders.dfy`): four read-only tools.
  - `findDuplicateRecords`;
  - `findIncompleteRescues`, with the date parser and today's date as parameters;
  - the merge in `updateSFRescuesWithComments`;
  - `findRescueDiscrepancies`.
- **Gui** (`gui.dfy`):
  - `getFileNameFromPath`;
  - the dialog's task and file fields, as set by `onRadioButtonClick` and
    `filePicker`;
  - `checkFilePickersLoaded`, as written and as intended.

Code that loops and writes cells or appends rows is modelled as methods over
arrays or sequences, with loop invariants. This covers the name cleaner, the
batch partition, the Parent Id writer, the name splitter and the date
conversion. Each of those methods is proved against functions that specify it.
Whole-table expressions are modelled as functions, and lemmas state their
meaning.

One case of the account reconciler does not do what the code evidently
intends. An account that is its own parent ("Acme Corp") should be uploaded
once, and it should be the parent its new children ("Acme Downtown") are
attached to. The code adds both the account itself and a parent stub for the
child to the first batch (functions.py:213-222). The two rows survive
`drop_duplicates` whenever the account has any non-null field besides its
names. The look-up of the child's parent (functions.py:253) then finds two
accounts, so `.item()` raises. The model follows the code; the "## Findings"
table below names the member that shows the two rows and the corrected first
batch.

## Model

| member | source | states |
|---|---|---|
| Names.Split | functions.py:52 | Every token `str.split()` yields is non-empty and free of whitespace |
| Names.SplitJoin | functions.py:52 | Splitting words that were joined with single spaces gives back the same words |
| Names.JoinCanonical | functions.py:52 | A single-space join of tokens has no leading or trailing whitespace, and its only whitespace is single spaces |
| Names.CanonicalFixpoint | functions.py:52 | A string that is already clean is the join of its own tokens |
| Names.NormalizeCanonical | functions.py:52 | A normalised name has no leading or trailing whitespace and no two consecutive whitespace characters |
| Names.NormalizeKeepsWords | functions.py:52 | Normalising changes only whitespace: the tokens stay the same and in order |
| Names.NormalizeIdempotent | functions.py:52 | Normalising twice gives the same result as normalising once |
| Names.NormalizeFixedPoints | functions.py:52 | The strings normalising leaves unchanged are exactly the clean ones, in both directions |
| Names.CleanupNameWhitespace | functions.py:50-53 | Rewrites only column `colName` of every row, in place, to the normalised text of the cell, with null read as "nan". Row count and other columns are unchanged and every written cell is clean. A missing column fails before anything is written |
| Names.CleanupIdempotent | functions.py:50-53 | Cleaning a cell that is already clean changes nothing |
| Names.JoinLast | functions.py:374-375 | The join of all tokens but the last, then a space, then the last token, is the join of all tokens |
| Order.StrLessIrreflexive | functions.py:509 | No string sorts before itself |
| Order.StrLessTransitive | functions.py:509 | The text order is transitive |
| Order.StrLessTotal | functions.py:509 | Of two different strings, one sorts first |
| Order.CellLeTransitive | functions.py:509 | The column order with nulls last is transitive |
| Order.CellLeTotal | functions.py:509 | Any two cells are ordered one way or the other |
| Order.Insert | functions.py:509 | Inserting into a sorted column keeps it sorted, and adds exactly the one cell |
| Order.Sort | functions.py:509 | `sort_values` returns a sorted permutation of the column |
| Order.FilterSorted | functions.py:525-529 | Filtering a sorted column keeps it sorted |
| Order.DedupSorted | functions.py:428 | Dropping repeats from a sorted column keeps it sorted |
| Order.SortMembers | functions.py:509 | Sorting keeps exactly the same cells |
| Tables.Filter | functions.py:194 | Boolean indexing keeps exactly the rows that pass the test, and no more rows than before |
| Tables.FilterCount | functions.py:194 | Each row passing the test is kept as often as it occurs, and no failing row is kept |
| Tables.Dedup | functions.py:228 | `drop_duplicates` leaves no row twice and keeps every distinct row |
| Tables.Lookup | functions.py:216 | The right rows whose key equals the given key: exactly those, and empty exactly when none matches |
| Tables.LookupOfUniqueKeys | functions.py:216 | A lookup in a table with unique keys finds at most one row |
| Tables.LeftJoinPairs | functions.py:193 | For any left row and right row: the left merge pairs them exactly when both are in their tables and their keys agree |
| Tables.LeftJoinUnpaired | functions.py:193 | For any left row: the left merge holds it with a null right side exactly when it is in the left table and no right row has its key |
| Tables.LeftJoinLeftRows | functions.py:193 | Every row of a left merge carries a row of the left table |
| Tables.LeftJoinAtMostOne | functions.py:308-310 | When each left row has at most one partner, the merge keeps the left rows one for one and in order, each with its partner or null |
| Tables.UnmatchedIsAntiJoin | functions.py:193-195 | A left merge followed by `Id.isnull()` is exactly the anti-join: the left rows, in order, that no right row matches |
| Tables.WithoutMatchIsFilter | functions.py:193-195 | The anti-join equals boolean indexing by any test that holds exactly for the unmatched rows |
| Tables.InnerJoin | functions.py:490-493 | A left merge followed by a not-null filter holds exactly the pairs whose keys agree |
| Accounts.KnownAccounts | functions.py:183-188 | Holds the CRM accounts of the uploaded record type, names normalised, and no others |
| Accounts.Street | functions.py:198 | `ShippingStreet` is Line1, a space and Line2; it is Line1 alone when Line2 is null, and null when Line1 is null |
| Accounts.NewAccountsAreUnknownAdmins | functions.py:183-203 | The new accounts are exactly the admin rows, in original order, whose normalised name matches no CRM account of the record type. Each is rewritten with normalised names, merged street, no parent and the record type |
| Accounts.KnownIdsSpec | functions.py:215-216 | The Ids looked up for a parent name are exactly the known accounts carrying that name. With unique names there is at most one |
| Accounts.PlaceSpec | functions.py:213-224 | Each new account takes exactly one branch. It is self-parented exactly when its name is its parent name. It needs a new parent exactly when no known account has the parent name. A parent Id it takes belongs to a known account of that name. Unique names rule out the failing `.item()` |
| Accounts.DeferredIsFilter | functions.py:219-224 | The accounts the loop defers to batch 2 are exactly the new accounts whose parent no known account names, in order |
| Accounts.ParentsBeforeChildren | functions.py:219-224 | Every deferred child has a parent stub in batch 1, so its parent is created before the child is uploaded |
| Accounts.PlaceAccount | functions.py:213-224 | One pass of the partition loop: the batch-1 row of the three-way rule and whether the account is deferred. It fails exactly when several known accounts share the parent name |
| Accounts.PartitionNewAccounts | functions.py:206-224 | Every new account puts exactly one row into batch 1, in order: itself, itself with its parent's Id, or a parent stub. Batch 2 holds exactly the deferred accounts. It fails at the first ambiguous parent name |
| Accounts.RefreshedIds | functions.py:245-253 | The Ids of the refreshed accounts of the type whose name is exactly the parent name |
| Accounts.AttachParentIds | functions.py:251-254 | Writes into each batch-2 row, in place, the Id of the one refreshed account with its parent name. It stops at the first row with zero or several matches, leaving later rows untouched |
| Accounts.FirstUpload | functions.py:183-229 | Fails exactly when a parent name is ambiguous, with that as the cause. Batch 1 is the new accounts' batch-1 rows, de-duplicated while Parent Name is still a column (no two equal rows, first occurrences in order), then without Parent Name; so it holds every account's row and nothing else. The deferred children are handed on |
| Accounts.SecondUpload | functions.py:250-264 | Batch 2 is the deferred children, in order, each with its parent's Id and without Parent Name. It fails exactly when some parent name matches other than one refreshed account, with a failed lookup as the cause |
| Accounts.UploadAccounts | functions.py:179-265 | Succeeds exactly when every parent lookup finds one account. Batch 1 is the de-duplicated batch-1 rows without Parent Name, as in `FirstUpload`; batch 2 is the deferred children in order, each with its unique refreshed parent Id. An ambiguous name in the admin-side lookup fails with nothing uploaded. A failed lookup in the refreshed snapshot fails with batch 1 already uploaded, and the failure carries that batch |
| Accounts.SelfParentedParentUploadedTwice | functions.py:213-228 | A self-parented account with a child whose parent is new leaves two distinct rows with its name in the de-duplicated batch 1 |
| Accounts.FirstBatchUploaded | functions.py:206-229 | The de-duplicated, projected batch 1 holds every new account's row and only those rows, and is no longer than the new accounts |
| Accounts.FixedFirstBatchMembers | functions.py:211-224 | The corrected batch 1 holds exactly the rows of the accounts that add one: every account except a child whose new parent is its own parent |
| Accounts.FixedFirstBatchSpec | functions.py:211-228 | For new accounts with unique names and two-level parents, the corrected batch 1 after `drop_duplicates` has one row per name, holds every account that does not wait for a parent, and has exactly one row named after each deferred child's parent, a name no known account carries |
| Volunteers.KnownVolunteers | functions.py:349-359 | Holds the contacts of the volunteers account, names normalised, and no others |
| Volunteers.NewVolunteerRowsNormalised | functions.py:358-367 | Every new volunteer row has a normalised name and the volunteers account's Id |
| Volunteers.NewVolunteersAreUnknown | functions.py:361-364 | The new volunteers are exactly the admin rows, in original order, whose normalised name matches no volunteer contact |
| Volunteers.NamePartsTokens | functions.py:374-375 | The last name is the last token and the first name holds the tokens before it. Only a name with no token fails |
| Volunteers.NamePartsRoundTrip | functions.py:374-375 | For a normalised name, the first name, a space and the last name give back the name; a one-token name has an empty first name. Only "" fails |
| Volunteers.SplitNames | functions.py:371-375 | Writes FirstName and LastName row by row, in place. It fails exactly when a name has no token, at the first such row; that row keeps an empty FirstName and later rows are untouched |
| Volunteers.NamedUpload | functions.py:373-377 | A split row uploads a first and last name whose tokens are the name's tokens |
| Volunteers.SplitAndProject | functions.py:371-377 | On normalised rows: fails exactly when a name is empty. Otherwise every row is uploaded in order with its name split, and its Email, Phone, mailing address and AccountId kept |
| Volunteers.UploadVolunteers | functions.py:344-380 | Fails exactly when a new volunteer's name has no token. Otherwise every new volunteer is uploaded in order, with the volunteers account's Id, its own Email, Phone and mailing address, and the name split into first and last |
| Rescues.NewFoodRescuesSpec | functions.py:388-394 | The new rescues are exactly the admin rows, in original order, whose (Rescue ID, Food Type, Weight) no CRM rescue carries |
| Rescues.DedupDoesNotMatter | functions.py:388 | De-duplicating the CRM rows first does not change which rescues are new |
| Rescues.SameKeySameFate | functions.py:392-393 | Two admin rows with the same key triple are both new or both already in the CRM |
| Rescues.LinkDonorsKeepsRescues | functions.py:308 | The donor merge keeps every row's rescue |
| Rescues.LinkPartnersKeepsRescues | functions.py:309 | The partner merge keeps every row's rescue |
| Rescues.LinkVolunteersKeepsRescues | functions.py:310 | The volunteer merge keeps every row's rescue |
| Rescues.LinkedRescuesAreClosed | functions.py:276-314 | Every uploaded rescue is a completed or canceled admin rescue with its own columns unchanged |
| Rescues.LinkDonorsUnique | functions.py:299-308 | With unique donor names, the donor merge keeps rows one for one and sets each donor Id to the one donor of that normalised name, or null |
| Rescues.LinkPartnersUnique | functions.py:300-309 | With unique partner names, the partner merge keeps rows one for one and sets each agency Id to the one partner of that normalised name, or null |
| Rescues.LinkVolunteersUnique | functions.py:301-310 | With unique volunteer names, the volunteer merge keeps rows one for one and sets each volunteer Id to the one volunteer of that name (null read as "nan"), or null |
| Rescues.LinkRescuesOnePerRescue | functions.py:276-314 | With unique lookup names, each closed rescue is uploaded exactly once, in order, with each link the Id of the one CRM record of that name or null |
| Rescues.UploadedRescuesAreNewAndClosed | functions.py:383-397 | Every rescue uploaded is a completed or canceled admin rescue whose key triple no CRM rescue carries |
| Finders.GroupKeys | functions.py:428 | The group keys come in sorted order, each once, and cover every row's key |
| Finders.GroupsCount | functions.py:428 | A row is in the concatenated groups as often as in the table when its key is not null and repeats, and not at all otherwise |
| Finders.GroupsRows | functions.py:428 | The groups hold only table rows with a non-null key |
| Finders.GroupsSorted | functions.py:428 | The groups come in ascending key order, so rows of one key are contiguous |
| Finders.FindDuplicateRecordsSpec | functions.py:425-432 | Returns exactly the rows whose non-null key occurs more than once, as often as they occur, grouped in key order. It returns "No duplicates were found!" exactly when no key repeats |
| Finders.FindIncompleteRescues | functions.py:456-469 | Returns the open rescues, parsed, that were picked up before today, projected to four columns, with repeats dropped and first occurrences kept in file order; so exactly those rescues, each once. It fails exactly when an open rescue's pickup day does not parse, at the first such row |
| Finders.IncompleteRescuesMembers | functions.py:459-469 | The parsed, past-due, de-duplicated open rescues are exactly the parsed rows of the open rescues whose pickup day is before today |
| Finders.CommentUpdatesSpec | functions.py:474-497 | An update is sent exactly for each CRM rescue without comments paired with a non-empty comment row of the same Rescue ID. A rescue that already has comments is never touched |
| Finders.FindRescueDiscrepancies | functions.py:501-534 | Fails exactly when `choose` is neither 1 nor 2. Otherwise the Rescue IDs come back sorted |
| Finders.DiscrepanciesSpec | functions.py:523-529 | An ID is reported as often as it occurs on its own completed side when the other side lacks it, and never otherwise |
| Finders.CompletedIdsMembers | functions.py:505-521 | Each side's ID list holds exactly the IDs of its completed rescues |
| Finders.CrmOnlyIds | functions.py:523-525 | Mode 1 reports an ID exactly when it is completed in the CRM and not completed in the admin tool |
| Finders.AdminOnlyIds | functions.py:527-529 | Mode 2 reports an ID exactly when it is completed in the admin tool and not completed in the CRM |
| Gui.Reverse | gui.py:117 | `s[::-1]` keeps the length and reads the string back to front |
| Gui.IndexOf | gui.py:119 | `str.index` finds the first occurrence and fails exactly when the character is absent |
| Gui.FileNameFromPathSpec | gui.py:115-119 | The file name holds no '/' and is what follows the last '/' of the path. A path without '/' fails |
| Gui.TrailingSlashGivesEmptyName | gui.py:119 | A path ending in '/' gives the empty name |
| Gui.FilesLoadedAsWrittenSpec | gui.py:227-246 | As written, the check always answers. In the upload task it passes only when the first three files are missing and the fourth is chosen. The duplicates task passes whatever the files. In every other task it looks at the first file alone |
| Gui.UploadWithAllFilesRefused | gui.py:230-234 | As written, the upload task with all four reports chosen is refused |
| Gui.CreateAccountsWithOneFileAccepted | gui.py:237-241 | As written, account creation with only the first report chosen is accepted |
| Gui.RequiredFilesLoaded | gui.py:227-246 | The intended check passes exactly for a known task with every report it reads chosen (4, 0, 1, 1 and 3 files) |
| Gui.UploadWithAllFilesAccepted | gui.py:230-234 | The intended check accepts the upload task with all four reports chosen |
| Gui.CreateAccountsWithOneFileRefused | gui.py:242-246 | The intended check refuses account creation with only the first report chosen |
| Gui.Dialog.constructor | gui.py:18-22 | A new dialog has no task and no files |
| Gui.Dialog.CheckFilePickersLoaded | gui.py:227-246 | The as-written check on the dialog's fields never falls through to the implicit None |
| Gui.Dialog.OnRadioButtonClick | gui.py:174-219 | Every toggle clears all four files, and a known label becomes the task. Right after choosing a task, only the duplicates task passes the intended check |
| Gui.Dialog.FilePicker | gui.py:97-119 | For a clicked button, a chosen path without '/' fails (getFileNameFromPath raises) and nothing is stored. Otherwise a chosen file is stored for the clicked button only and returned; the other fields are unchanged. A cancel changes nothing and returns "" |

## Left out

- Authentication (SOAP and OAuth logins) is not modelled: these are network calls.
- The Bulk API query, ingest and job polling are not modelled: they are HTTP, sleeping and `sys.exit`. CRM snapshots are parameters, and an upload is the batch the model returns.
- The snapshot re-queried after the first account batch (functions.py:242) is the parameter `refreshed`. It is read, as in the code, without name normalisation.
- CSV reading and writing, and the fixed input file names, are not modelled: tables are parameters.
- The Int64 coercion of Phone and postal code (functions.py:232-236, 257-261, 368) is not modelled: it depends on pandas' dtype inference. Cells are kept as they are.
- Accounts.Street: cells are text, so a street is always built. When pandas reads the Line2 column as numbers, because every value in the export is numeric or empty, `' ' + Line2` at functions.py:198 raises TypeError and nothing is uploaded. The model does not capture this failure, which depends on dtype inference over the whole file.
- Date parsing (`strptime`) and the clock are not modelled. They are the parameters `parseDate` and `today` of `Finders.FindIncompleteRescues`.
- The `pd.to_datetime` conversions in findRescueDiscrepancies (functions.py:503, 512) are not modelled: their results are never read. A malformed date there would raise, and the model does not.
- Sort order is text order. Keys that pandas reads as numbers (a numeric Rescue ID column) would sort numerically, and numeric and text key columns would not match in a merge. Cells are text here.
- pandas dtype effects on merge keys are not modelled: cells compare as text values, and a null key matches a null key, as pandas merges do.
- Config lookup (`get_config_value`) is not modelled: it is file I/O.
- Printing and the orchestration in `uploadDataToSalesforce` are not modelled: they only sequence the modelled operations.
- The wrappers that filter by record type before `findDuplicateRecords`, and those that read reports before the uploads (functions.py:320-341, 434-453), are not modelled separately. Their filters are `Accounts.KnownAccounts` and `Volunteers.KnownVolunteers` without the renaming.
- The `Status == 'Active'` filter and column selection of the donor and partner wrappers are not modelled: the admin tables are the already-filtered rows.
- `endStuff` (gui.py:258-300) is not modelled: it calls functions with mismatched arities.
- Widget work (show, hide, setText, layouts) in gui.py is not modelled, and neither are app.py and gui2.py: they are user interface with no logic.
- Finders.FindRescueDiscrepancies: returns the ID column only, as `res` is a Series of IDs. The sorted column is modelled as the ID column sorted, not the rows sorted, then projected.
- Rescues.LinkRescuesOnePerRescue: holds only when donor, partner and volunteer names are unique in the CRM. Otherwise a rescue row is repeated once per matching record, which the model's `LeftJoin` computes but no lemma describes.

## Findings

| source | as written | input that shows it | evidently intended | confidence | as-written member | corrected member |
|---|---|---|---|---|---|---|
| gui.py:231 | `file1Str or file2Str or file3Str or file4Str == ""` refuses when any of the first three files is chosen | task "Salesforce data upload" with all four files chosen gives False | refuse when any of the four files is missing | high, not executed | Gui.UploadWithAllFilesRefused | Gui.RequiredFilesLoaded |
| gui.py:237 | `whatToDoStr == "Find incomplete rescue data" or "Find rescue discrepancies"` is always true, so the branch at 242-246 is never reached | task "Create new Salesforce accounts and contacts" with only file 1 chosen gives True | accept account creation only with all three reports chosen | high, not executed | Gui.CreateAccountsWithOneFileAccepted | Gui.RequiredFilesLoaded |
| functions.py:213-228 | a self-parented account is appended as itself and, for each new child, again as a parent stub; `drop_duplicates` keeps both rows when the account has any non-null field | "Acme Corp" (its own parent, with a phone number) and "Acme Downtown" (parent "Acme Corp"), neither in the CRM: batch 1 holds two "Acme Corp" rows, and the look-up at functions.py:253 finds two accounts, so `.item()` raises | upload the self-parented account once and attach its new children to it (for unique names and two-level parents) | high, not executed | Accounts.SelfParentedParentUploadedTwice | Accounts.FixedFirstBatchSpec |
