# Contract-review backend: a verified model of its core

The system is a FastAPI backend for reviewing loan contracts. Staff upload a contract. The contract's
pages go through an external OCR vendor, and the text, page rows and word boxes are stored. Each
contract then moves through a checklist review and a keypoint review (current_state 0 to 4).
System administrators keep two lists:

- the checklist questions;
- the terms-and-conditions restrictions (code, query).

Keypoint results link a contract to a restriction. The AI records them with a match rate, or a user
records them with no rate. Users log in with refresh tokens. Only administrators register and delete accounts; users may
update their own account, without the restricted fields.

This project models the core of that code in Dafny and proves what it promises:

- **OCR clients.** Parsing of the vendor response, request shaping and URL normalisation, in both
  client versions (modules `OcrTypes`, `OcrEngine`, `LegacyOcrEngine`).
- **The per-file OCR job** (module `OcrService`). It is a status machine ending in COMPLETE or
  ERROR, driven by a page loop.
- **OCR storage** (module `OcrRepository`). Each table is a class holding a sequence of rows and its
  next auto-increment id.
- **The contract lifecycle** (modules `ContractRepository` and `ContractService`).
- **Validation and permissions** (modules `Users`, `BaseService`, `UserService`).
- **The lists and results** (modules `TermsService`, `ChecklistService`, `KeypointRepository`,
  `KeypointService`).

Shared helpers:

- `Common`: Option, Result, error kinds, filter, count, find;
- `Text`: Python string operations on `seq<char>`;
- `Json`: the decoded JSON value;
- `Sorting`: a stable insertion sort.

Calls into code outside the model are parameters, not implementations:

| call | shape in the model |
|---|---|
| the HTTP post to the vendor | `post: Upload -> Option<HttpResponse>`, `None` when the transport raises |
| `json.loads` | `decode: string -> Option<Json>` |
| the file system | a map from path to bytes |
| bcrypt | `hash` and `checkPassword` |
| JWT | `mintAccess`, `mintRefresh` and `verifyToken` |
| the undefined `UserRepository.find_user_activation` | `activation: nat -> bool` |
| the clock | `clock` / `now` values |
| a storage exception or soft failure | `fails: bool` per call, or a `faults` oracle over the job's store calls |

An exception the source raises is a `Failure(kind)` or `Fail(kind)` with the Python exception's kind
(ValueError, PermissionError, RuntimeError, HTTP status). A MySQL table is a sequence of rows in
insertion order, and ids come from a counter that starts at 1.

Two behaviours of the code deserve a note:

- No transition checks the contract's current state, so a finished contract can be set back
  to 1 (`ContractRepository.StateCanGoBack`).
- The docstring of the terms service's `validate_system_user`
  (src/services/termsNconditions_service.py:10-18) lists a PermissionError for users who are not
  administrators. The code only checks that the user exists, and the model follows the code
  (`TermsService.NoRoleCheck`).

## Model

| member | source | states |
|---|---|---|
| OcrEngine.Create | src/services/ocr_engine.py:13-30 | fails with ValueError exactly when the licence key or the base URL is empty or whitespace; otherwise keeps the key and builds the three endpoint URLs from the normalised base |
| OcrEngine.WithScheme | src/services/ocr_engine.py:20-22 | the result always has a scheme; an address with "http://" or "https://" in any case is kept, any other gets "http://" in front |
| OcrEngine.NormalizeBaseUrl | src/services/ocr_engine.py:20-25 | the base is the schemed address with all trailing '/' removed and nothing else: a prefix of it, followed only by '/', not ending in '/' |
| OcrEngine.NormalizeKeepsAddress | src/services/ocr_engine.py:20-25 | an address not ending in '/' is left as the schemed address |
| OcrEngine.NormalizeIdempotent | src/services/ocr_engine.py:20-25 | normalising a normalised base changes nothing |
| OcrEngine.SchemeOnlyAddress | src/services/ocr_engine.py:21-25 | "http://" alone normalises to "http:", since stripping also eats the scheme's slashes |
| OcrEngine.ContentTypeOfExtension | src/services/ocr_engine.py:168-177 | a name ending in .pdf, .png, .tif, .tiff, .jpg or .jpeg (any case) gets that extension's content type |
| OcrEngine.ContentType | src/services/ocr_engine.py:168-178 | one of PDF, PNG, TIFF, JPEG or octet-stream, octet-stream for any other name |
| OcrEngine.ContentTypeDefault | src/services/ocr_engine.py:178 | a name with none of those endings is application/octet-stream |
| OcrEngine.ContentTypeIgnoresCase | src/services/ocr_engine.py:169 | the mapping depends only on the lower-cased name |
| OcrEngine.Form | src/services/ocr_engine.py:72-82 | the posted form has exactly the nine vendor fields |
| OcrEngine.FormRoundTrip | src/services/ocr_engine.py:69-82 | every request argument can be read back, unchanged, from the posted form; booleans as "true"/"false"; the licence travels with them |
| OcrEngine.MaskLicense | src/services/ocr_engine.py:85-87 | a non-empty licence is logged as its first (up to) four characters followed by "****"; an empty one is not masked |
| OcrEngine.LoggedFormHidesLicense | src/services/ocr_engine.py:85-88 | the logged form shows at most four licence characters and agrees with the posted form on every other field |
| OcrEngine.OcrOutcome | src/services/ocr_engine.py:44-107 | every failure is a RuntimeError; a missing file, a transport error and a non-200 status all fail; a 200 reply yields exactly the parse of its text, rotate included |
| OcrEngine.EmptyOkReplyGivesDefaults | src/services/ocr_engine.py:97-104 | a 200 reply of "{}" yields the default envelope with no text and no boxes |
| OcrEngine.Ocr | src/services/ocr_engine.py:44-107 | the method computes exactly OcrOutcome |
| OcrEngine.ExampleReplyParses | src/services/ocr_engine.py:180-224 | a one-node vendor reply with text and a four-corner bbox parses to its fid, page count, text and box |
| OcrTypes.PointOf | src/services/ocr_engine.py:202-205 | a corner is read from the first two integers of a list; any other shape is a RuntimeError |
| OcrTypes.ParseNode | src/services/ocr_engine.py:195-215 | a node contributes a text part iff its text is non-empty, and a box iff its bbox is a list of exactly four entries; the box's label is the node's text, its corners are bbox[0..3] read as left_top, right_top, right_bottom, left_bottom, and its confidence is "score", 0.0 when absent |
| OcrTypes.Collect | src/services/ocr_engine.py:192-215 | the loop gathers at most one part and one box per node, only non-empty parts, and fails only with RuntimeError |
| OcrTypes.CollectPrefixFailure | src/services/ocr_engine.py:195-228 | a node that fails makes the whole parse fail |
| OcrTypes.CollectSucceedsIff | src/services/ocr_engine.py:195-215 | the loop succeeds exactly when every node parses |
| OcrTypes.CollectCounts | src/services/ocr_engine.py:197-201 | the box count is the number of four-point nodes and the part count the number of nodes with text |
| OcrTypes.CollectNodes | src/services/ocr_engine.py:192-215 | the appending loop computes exactly Collect |
| OcrTypes.CollectPartsAreTexts | src/services/ocr_engine.py:195-198 | the parts are the nodes' non-empty texts in node order |
| OcrTypes.CollectBoxesAreNodeBoxes | src/services/ocr_engine.py:200-215 | the gathered boxes are exactly the boxes the nodes build, in node order, as defined front to back |
| OcrTypes.CollectBoxCount | src/services/ocr_engine.py:200-215 | the box count is the number of nodes whose bbox has four points |
| OcrTypes.CollectPartCount | src/services/ocr_engine.py:192-198 | the part count is the number of nodes with non-empty text |
| OcrTypes.Envelope | src/services/ocr_engine.py:217-224 | fid, total_pages and page_file_data are read from "fid", "totalpage" and "file_path" with defaults "", 0 and "", and the result exists iff each read has the right type; the full text is the parts joined by one space and stripped; its boxes are the collected boxes; rotate is read only by the newer client |
| OcrTypes.ReadRotate | src/services/ocr_engine.py:220 | rotate defaults to a value (0.0) and a non-number fails with RuntimeError |
| OcrTypes.ParseVendorResponse | src/services/ocr_engine.py:180-228 | empty text fails; a non-list `ocr_result` fails; success needs a decoded JSON object; every failure is a RuntimeError |
| OcrTypes.ParsedBoxesAndText | src/services/ocr_engine.py:192-221 | a successful parse's boxes are, in node order, the boxes the four-point nodes build (one per such node, at most the node count), and its text is the stripped, space-joined node texts |
| OcrTypes.MissingKeysGiveDefaults | src/services/ocr_engine.py:186-224 | an empty object gives fid "", 0 pages, rotate 0.0 (newer client), no text, page file "" and no boxes |
| OcrTypes.ParseResponse | src/services/ocr_engine.py:180-228 | the method computes exactly ParseVendorResponse |
| LegacyOcrEngine.Create | src/ocr_engine.py:20-36 | the same blank checks, scheme rule, slash stripping and endpoint URLs as the newer client |
| LegacyOcrEngine.ContentTypeVersusNewer | src/ocr_engine.py:69-77 | the older table agrees with the newer one except that JPEG names are octet-stream |
| LegacyOcrEngine.JpegIsOctetStream | src/ocr_engine.py:69-77 | a .jpg or .jpeg name is sent as application/octet-stream |
| LegacyOcrEngine.ContentType | src/ocr_engine.py:69-77 | one of PDF, PNG, TIFF or octet-stream; never image/jpeg |
| LegacyOcrEngine.FilePartOf | src/ocr_engine.py:83-97 | an upload keeps its filename, an open file its basename, both typed by name; raw bytes become "file.bin" as octet-stream; the content is unchanged |
| LegacyOcrEngine.OrDefault | src/ocr_engine.py:105-111 | `x or default`: a missing or empty string gives the default, any other is kept |
| LegacyOcrEngine.Form | src/ocr_engine.py:104-114 | the posted form has the same nine fields as the newer client |
| LegacyOcrEngine.FormDefaults | src/ocr_engine.py:106-110 | the page index is never empty, and booleans are "True"/"False", unlike the newer client's spelling |
| LegacyOcrEngine.OcrOutcome | src/ocr_engine.py:59-180 | transport errors, a non-200 status and parse errors all reach the caller as RuntimeError; a 200 reply yields exactly the parse of its text without rotate, so the result never carries rotate |
| LegacyOcrEngine.Ocr | src/ocr_engine.py:53-67 | the method computes exactly OcrOutcome |
| LegacyOcrEngine.BoxesJson | src/ocr_engine.py:230-241 | one map per box, in order |
| LegacyOcrEngine.PointRoundTrip | src/ocr_engine.py:236-239 | a corner's x and y are copied unchanged |
| LegacyOcrEngine.BoxRoundTrip | src/ocr_engine.py:233-240 | a box's label, score and four corners are copied unchanged |
| LegacyOcrEngine.BoxesRoundTrip | src/ocr_engine.py:230-243 | the boxes list can be read back to the result's boxes, same order |
| LegacyOcrEngine.ResultMapRoundTrip | src/ocr_engine.py:222-244 | the map with keys fid, fullText, totalPages, rotate, pageFileData and boxes reads back to the result |
| LegacyOcrEngine.ResultToMap | src/ocr_engine.py:222-244 | the building loop computes exactly the map form |
| LegacyOcrEngine.OcrToMap | src/ocr_engine.py:216-244 | a failed OCR is a RuntimeError; a successful one is returned as a map that reads back to the OCR result |
| LegacyOcrEngine.EngineRegistry.Initialize | src/ocr_engine.py:253-257 | the registry holds the engine built from the arguments; a constructor error leaves it as it was |
| LegacyOcrEngine.EngineRegistry.GetEngine | src/ocr_engine.py:259-263 | RuntimeError before initialisation, the held engine after |
| LegacyOcrEngine.InitializeThenGet | src/ocr_engine.py:251-263 | a fresh registry refuses; after a valid initialisation it returns that engine |
| OcrService.PageRequestShape | src/services/ocr_service.py:127-165 | page requests differ only in the page index; none carries the discovered fid; all are "local" |
| OcrService.RunLength | src/services/ocr_service.py:159-180 | the page loop's reach: every engine call before it returned and the call at it raised |
| OcrService.PagesRunBounds | src/services/ocr_service.py:127-159 | at most max(1, total_pages) indices are covered, none if the first call fails, all of them if the job succeeds |
| OcrService.RunStopsAtFirstFailure | src/services/ocr_service.py:159-197 | the loop stops at the first index whose engine call raises |
| OcrService.RunAllSucceed | src/services/ocr_service.py:159-180 | when every call returns, the loop covers every index |
| OcrService.JobPagesAscending | src/services/ocr_service.py:144-177 | page rows are written for pages 1..n, in strictly ascending order, for this file, with status SUCCESS |
| OcrService.JobPagesAllWritten | src/services/ocr_service.py:144-177 | with no engine failure and no save fault, exactly pages 1..n are written |
| OcrService.PagesLeftBehind | src/services/ocr_service.py:159-197 | when the call for page index k raises, the job fails and page rows 1..k stay in place |
| OcrService.FinalStatus | src/services/ocr_service.py:183-197 | the file ends COMPLETE when every engine call returned and ERROR otherwise (unless that status write itself fails) |
| OcrService.TotalsRecorded | src/services/ocr_service.py:135-141 | after a successful first call, the file row holds that reply's total_pages and fid |
| OcrService.CompleteWithMissingPage | src/services/ocr_service.py:144-186 | a page save that fails does not stop the job: it can end COMPLETE with fewer page rows than pages |
| OcrService.JobPagesNeverHas | src/services/ocr_service.py:144-156 | a page whose save fails has no row |
| OcrService.SaveResultPage | src/services/ocr_service.py:144-180 | a page row with the reply's text, file data and rotate; boxes only when the page got an id and the list is non-empty |
| OcrService.OcrPages | src/services/ocr_service.py:144-180 | the page loop appends exactly the job's page rows and, for each of them, that page's own reply boxes under its row id (none when the box save fails); it reports whether every call returned, and makes exactly the loop's calls up to the first that raises |
| OcrService.ProcessOcr | src/services/ocr_service.py:110-197 | PROCESSING, then the totals, the pages, then COMPLETE or ERROR: the file table ends as the job specifies, the new page rows are the job's, the new box rows are each page's reply boxes under that page's id, and the calls it makes are exactly JobTrace |
| OcrService.FilesAfterJob | src/services/ocr_service.py:118-197 | the job only rewrites fields of its own file row: same length, same ids, every other row unchanged |
| OcrService.JobPages | src/services/ocr_service.py:143-180 | at most n page rows for the first n indices, all for this file, with page numbers in 1..n |
| OcrService.LoopCallsKinds | src/services/ocr_service.py:159-180 | the page loop makes only engine calls for indices 1..n-1 and page and box saves for pages 1..n |
| OcrService.JobTraceOrder | src/services/ocr_service.py:118-197 | PROCESSING is written before the first engine call; when it returns, total_page and fid are written next, once, before any page or box row; the status is written only first and last, ending COMPLETE or ERROR |
| OcrService.NextPage | src/services/ocr_service.py:159-180 | one loop iteration: the engine call, then when it returns the page row and that reply's boxes under the new page's id, with the loop's calls extended by them; no change when it raises |
| OcrService.StorePage | src/services/ocr_service.py:144-156 | storing one page keeps the job state one page further: its page row, and its reply's boxes under that row's id |
| OcrService.SavedPageKeepsJobState | src/services/ocr_service.py:144-156 | the rows one page save writes extend the job's page rows by that page and its box rows by that page's boxes |
| OcrService.JobBoxesOnPages | src/services/ocr_service.py:155-180 | every box the job stores carries the id of one of the page rows it wrote |
| OcrService.ProcessFile | src/services/ocr_service.py:57-108 | a failed save replies failure with "failed" and starts nothing; otherwise a READY, GMS row for the file's basename and contract, the reply (true, id, "processing"), and the job's file, page and box rows and calls as ProcessOcr states them |
| OcrRepository.ApplyUpdate | src/repositories/ocr_repository.py:64-74 | only the fields set in the update change; every other field is kept |
| OcrRepository.EmptyUpdateIsIdentity | src/repositories/ocr_repository.py:76-77 | an update with no field set changes nothing |
| OcrRepository.ApplyUpdateIdempotent | src/repositories/ocr_repository.py:64-86 | applying an update twice is applying it once |
| OcrRepository.UpdateRows | src/repositories/ocr_repository.py:79-86 | only the row with the given id is updated |
| OcrRepository.UpdateTouchesOnlyTarget | src/repositories/ocr_repository.py:79-89 | other rows are unchanged, and an unknown id changes nothing |
| OcrRepository.BoxValuesRoundTrip | src/repositories/ocr_repository.py:154-175 | a stored box keeps its label, eight coordinates and confidence, under the given page |
| OcrRepository.AllValuesOf | src/repositories/ocr_repository.py:161-175 | one stored tuple per box, in order |
| OcrRepository.IdsValidAppendRun | src/repositories/ocr_repository.py:177-178 | a bulk insert keeps ids increasing |
| OcrRepository.LatestFile | src/repositories/ocr_repository.py:220-229 | the contract's file with the newest created date, or none exactly when the contract has no file |
| OcrRepository.PagesOf | src/repositories/ocr_repository.py:246-258 | exactly the file's pages, sorted by page number |
| OcrRepository.BoxesOf | src/repositories/ocr_repository.py:271-283 | exactly the page's boxes |
| OcrRepository.BoxesOrderedById | src/repositories/ocr_repository.py:274-275 | the page's boxes come back in ascending id order |
| OcrRepository.PagesWithBoxes | src/repositories/ocr_repository.py:299-307 | one entry per page, in page order, each with that page |
| OcrRepository.AggregatePresence | src/repositories/ocr_repository.py:291-296 | no aggregate exactly when the contract has no file (or the lookup fails); otherwise it is built on the latest file |
| OcrRepository.AggregateTotalIsPageRowCount | src/repositories/ocr_repository.py:296-313 | total_pages is the number of page rows, not the stored total_page |
| OcrRepository.AggregatePageOrder | src/repositories/ocr_repository.py:296-307 | pages are in page order |
| OcrRepository.AggregateBoxesBelongToPage | src/repositories/ocr_repository.py:300-307 | every box listed under a page belongs to that page |
| OcrRepository.OcrStore.SaveOcrFile | src/repositories/ocr_repository.py:16-51 | the new id (at least 1) and the row appended, or none and no change on a storage error |
| OcrRepository.OcrStore.UpdateOcrFile | src/repositories/ocr_repository.py:54-98 | no field set: true with no change; a storage error: false with no change; otherwise the target row updated and true exactly when a row changed |
| OcrRepository.OcrStore.SaveOcrPage | src/repositories/ocr_repository.py:101-141 | the new id and the row appended, or none and no change |
| OcrRepository.OcrStore.SaveOcrBoxes | src/repositories/ocr_repository.py:144-189 | an empty list is true with no write; otherwise one row per box, in order, or false with no change |
| OcrRepository.OcrStore.ResultByContract | src/repositories/ocr_repository.py:289-315 | the loop building pages_with_boxes computes exactly the aggregate |
| OcrRepository.OcrStore.FileByContract | src/repositories/ocr_repository.py:213-237 | the latest file of the contract, or none on a failed query; any file returned belongs to the contract |
| OcrRepository.OcrStore.PagesByFile | src/repositories/ocr_repository.py:239-262 | the file's pages sorted by page number; all of them unless the query fails, then none |
| OcrRepository.OcrStore.BoxesByPage | src/repositories/ocr_repository.py:264-287 | the page's boxes; all of them unless the query fails, then none |
| OcrRepository.OcrStore.PairWithBoxes | src/repositories/ocr_repository.py:299-307 | the loop pairs each page, in order, with its boxes, or with none when that page's box query fails |
| ContractRepository.TransitionEffect | src/repositories/contract_repository.py:49-130 | each transition writes its state (1, 2, 3, 4) and its own fields into the addressed row only |
| ContractRepository.TransitionKeepsTable | src/repositories/contract_repository.py:49-137 | transitions keep ids and states in 0..4 |
| ContractRepository.TransitionsAreUnguarded | src/repositories/contract_repository.py:53-128 | no transition depends on the current state |
| ContractRepository.StateCanGoBack | src/repositories/contract_repository.py:49-54 | a finished contract can be set back to checklist-in-progress |
| ContractRepository.FinishKeypointAsWritten | src/repositories/contract_repository.py:124-137 | as written, `(contract_id)` reaches the driver as a bare value, so the shared execute step refuses it: the call returns False and changes nothing |
| ContractRepository.FinishKeypointAsWrittenNeverFinishes | src/repositories/contract_repository.py:127-130 | as written, a keypoint-in-progress contract stays in state 3, while the intended update sets 4 |
| ContractRepository.ExecuteUpdate | src/repositories/contract_repository.py:52-55 | the driver's parameter binding: a database error exactly when the parameters are not a sequence or their number is not the number of markers; otherwise the row update keeps the table's length |
| ContractRepository.RunTransition | src/repositories/contract_repository.py:49-62 | the try/commit/except-rollback shape of every transition: true exactly when the execute succeeded and storage did not fail, with the executed rows; otherwise false and the table unchanged |
| ContractRepository.TupleRunsTransition | src/repositories/contract_repository.py:52-58 | with one value per marker and the id last, a transition commits exactly the row update of that id, or returns false with no change |
| ContractRepository.BareNeverCommits | src/repositories/contract_repository.py:127-130 | a bare parameter never reaches the table: false and no change, whatever the storage does |
| ContractRepository.ContractStore.Apply | src/repositories/contract_repository.py:49-62 | one transition, with the reply and the new table that RunTransition gives |
| ContractRepository.Bucket | src/repositories/contract_repository.py:40-146 | a bucket holds exactly the contracts in that state |
| ContractRepository.BucketsDisjoint | src/repositories/contract_repository.py:43-143 | no contract is in two buckets |
| ContractRepository.BucketsCoverTable | src/repositories/contract_repository.py:40-146 | with states in 0..4, the five buckets together hold the table's rows |
| ContractRepository.FindByFilePath | src/repositories/contract_repository.py:165-171 | a row matches only when both the contract name and the file name are equal; none exactly when no row has the pair |
| ContractRepository.ContractStore.AllContracts | src/repositories/contract_repository.py:30-36 | every row of the table, in table order |
| ContractRepository.ContractStore.ContractsInState | src/repositories/contract_repository.py:38-146 | exactly the rows in the given state (the five `current_state = n` queries) |
| ContractRepository.FilterKeepsTable | src/repositories/contract_repository.py:158-162 | a delete keeps ids increasing and states in range |
| ContractRepository.ContractStore.CreateContract | src/repositories/contract_repository.py:6-28 | the new id and a state-0 row appended, or a storage error with no change |
| ContractRepository.ContractStore.ProcessChecklist | src/repositories/contract_repository.py:49-62 | true with the transition applied, or false with no change on an error; true even when no row matched |
| ContractRepository.ContractStore.FinishChecklist | src/repositories/contract_repository.py:74-87 | the same, for state 2 and the printable path |
| ContractRepository.ContractStore.ProcessKeypoint | src/repositories/contract_repository.py:99-112 | the same, for state 3 and the keypoint processer |
| ContractRepository.ContractStore.FinishKeypoint | src/repositories/contract_repository.py:124-137 | the corrected update: state 4 on that row, true unless storage fails |
| ContractRepository.ContractStore.DeleteContract | src/repositories/contract_repository.py:158-162 | the row removed, and true exactly when a row had that id |
| ContractRepository.FinishKeypointRow | src/repositories/contract_repository.py:127-128 | the corrected row update sets state 4 |
| ContractService.UploadCheck | src/services/contract_service.py:26-29 | the uploader is validated first and its error propagates; then an existing (name, file) pair is a ValueError; passes otherwise |
| ContractService.UploadContract | src/services/contract_service.py:11-33 | a passing upload inserts a state-0 row and returns "contracts/original/{name}_{file}"; a failing check creates nothing |
| ContractService.UploadTwice | src/services/contract_service.py:28-31 | a second upload of the pair is refused, and exactly one row holds the pair |
| ContractService.ListContracts | src/services/contract_service.py:36-82 | fails exactly as the user validation does; otherwise the whole table or precisely the contracts in the requested state |
| ContractService.ListedInExactlyOneBucket | src/services/contract_service.py:45-82 | a contract with state in 0..4 appears in exactly the listing for its state |
| BaseService.ValidateUser | src/base_service.py:6-20 | passes iff the user exists and is active; a missing user is a ValueError whatever the activation says, an inactive one a PermissionError |
| BaseService.MissingUserIgnoresActivation | src/base_service.py:16-20 | existence is checked before activation |
| BaseService.CheckSystemAdmin | src/base_service.py:23-44 | returns the user's row iff it exists with role 'SYSTEM'; missing is ValueError, another role PermissionError |
| BaseService.AdminCheckOfRow | src/base_service.py:38-44 | for a stored user, the check succeeds iff that row's role is 'SYSTEM' |
| Users.FindByIdAt | src/base_service.py:16-18 | with distinct ids, looking up a row's id finds that row |
| Users.UpdateRow | src/services/user_service.py:252-262 | only the row with the given id changes |
| Users.FindAfterUpdate | src/services/user_service.py:252-262 | after an update, looking up the id finds the updated row |
| Users.FindOtherAfterUpdate | src/services/user_service.py:252-262 | other users are looked up as before |
| UserService.RegisterCheck | src/services/user_service.py:36-60 | administrator errors propagate; passes iff the caller is an administrator and both the login id and the IBK id are new; for an administrator every failure is ValueError |
| UserService.RegisterKeepsUnique | src/services/user_service.py:53-70 | a passing registration keeps login ids and IBK ids unique |
| UserService.LoginOutcome | src/services/user_service.py:75-110 | succeeds iff the login exists, is active ('T') and the password checks; every failure is a 400; the tokens carry the user's claims |
| UserService.RefreshOutcome | src/services/user_service.py:113-143 | an empty token is a 400; other failures are 401; succeeds iff the token verifies to an active user whose stored token is this one |
| UserService.LoginThenRefresh | src/services/user_service.py:97-133 | the refresh token issued at login refreshes |
| UserService.LogoutThenRefreshFails | src/services/user_service.py:132-154 | after logout the old refresh token no longer refreshes |
| UserService.PopRestricted | src/services/user_service.py:242-246 | dropping the restricted fields clears system_role, activate, hiearchy and team_id and keeps the rest |
| UserService.DropRestricted | src/services/user_service.py:242-246 | the pop loop computes exactly the dropped changes |
| UserService.UpdateOutcome | src/services/user_service.py:205-262 | succeeds iff both users exist, the caller is an administrator or the target, and the store reports success; a missing user is ValueError, a caller who is neither administrator nor target is PermissionError, and a failed store update is ValueError |
| UserService.SelfUpdateKeepsRestricted | src/services/user_service.py:240-250 | a non-administrator's own update keeps the four restricted fields and stores a new password hashed |
| UserService.AdminUpdateSetsFields | src/services/user_service.py:240-250 | an administrator's update writes the restricted fields it sets and hashes a new password |
| UserService.DeleteOutcome | src/services/user_service.py:265-296 | succeeds iff the caller is an administrator, the target exists and is not the caller, and the store deletes it |
| UserService.NoSelfDelete | src/services/user_service.py:284-285 | no one can delete themself |
| UserService.UserStore.Register | src/services/user_service.py:36-72 | a passing registration appends the row with the hashed password; a failed check, or a database error in `create_user` (StorageError), changes nothing |
| UserService.UserStore.Login | src/services/user_service.py:75-110 | a successful login stores the issued refresh token on that user only; a database error while storing it is a StorageError with no tokens and no change |
| UserService.UserStore.Logout | src/services/user_service.py:146-154 | clears the stored refresh token of an existing user; an unknown user is a ValueError, and a database error while clearing is a StorageError with no change |
| UserService.UserStore.UpdateUser | src/services/user_service.py:205-262 | on success the target row receives the effective changes; otherwise nothing changes |
| TermsService.ValidateSystemUser | src/services/termsNconditions_service.py:9-23 | passes iff the user exists; otherwise a ValueError |
| TermsService.NoRoleCheck | src/services/termsNconditions_service.py:9-24 | every existing user passes, whatever their role |
| TermsService.AddCheck | src/services/termsNconditions_service.py:40-47 | passes iff the user exists and neither the query nor the code is already listed; failures are ValueError |
| TermsService.AddKeepsUnique | src/services/termsNconditions_service.py:44-53 | a passing add keeps both columns unique |
| TermsService.EditCheck | src/services/termsNconditions_service.py:69-78 | passes iff the user exists, the row exists and no other row has the new query or code |
| TermsService.EditKeepingOwnValues | src/services/termsNconditions_service.py:69-78 | a row can be saved with its own query and code unchanged: its own values never count as duplicates |
| TermsService.EditKeepsUnique | src/services/termsNconditions_service.py:73-83 | a passing edit changes only the target row and keeps both columns unique |
| TermsService.TermsStore.AddQuery | src/services/termsNconditions_service.py:27-53 | a passing add appends the row; a failed check or storage error changes nothing |
| TermsService.TermsStore.EditQuery | src/services/termsNconditions_service.py:56-83 | a passing edit rewrites the target row's query and code |
| TermsService.TermsStore.DeleteQuery | src/services/termsNconditions_service.py:86-108 | an unknown id is a ValueError; otherwise the row is removed and no longer found |
| ChecklistService.ValidateSystemUser | src/services/checklist_service.py:9-24 | passes iff the user exists with role 'SYSTEM'; missing is ValueError, another role PermissionError |
| ChecklistService.SameAsAdminCheck | src/services/checklist_service.py:20-24 | agrees with the shared administrator check, error for error |
| ChecklistService.AddCheck | src/services/checklist_service.py:41-45 | the administrator check first; then an existing question is a ValueError |
| ChecklistService.AddKeepsUnique | src/services/checklist_service.py:44-50 | a passing add keeps questions unique |
| ChecklistService.EditCheck | src/services/checklist_service.py:68-72 | the administrator check first; then only the row's existence |
| ChecklistService.EditCanDuplicate | src/services/checklist_service.py:71-77 | an edit the add would refuse passes and leaves the same question twice |
| ChecklistService.ChecklistStore.AllQuestions | src/services/checklist_service.py:106-115 | one entry per row, in row order, with the row's id and question |
| ChecklistService.ChecklistStore.AddQuestion | src/services/checklist_service.py:27-50 | a passing add appends the question; otherwise nothing changes |
| ChecklistService.ChecklistStore.EditQuestion | src/services/checklist_service.py:53-77 | a passing edit rewrites that row's question |
| ChecklistService.ChecklistStore.DeleteQuestion | src/services/checklist_service.py:80-103 | an unknown id fails; otherwise the row is removed and no longer found |
| KeypointRepository.JoinAll | src/repositories/keypoint_result_repository.py:73-86 | one joined row per stored result, with the restriction's columns or NULLs |
| KeypointRepository.ByRateDesc | src/repositories/keypoint_result_repository.py:85 | the rows are a permutation ordered by match rate descending, NULL rates last |
| KeypointRepository.RankedResults | src/repositories/keypoint_result_repository.py:73-86 | the contract's joined results, all of them, ordered by descending rate |
| KeypointRepository.JoinRows | src/repositories/keypoint_result_repository.py:73-91 | the join yields no rows exactly when the contract does not exist |
| KeypointRepository.ItemsOfAllPresent | src/repositories/keypoint_result_repository.py:98-109 | rows that all have a result id are copied one for one |
| KeypointRepository.CollectItems | src/repositories/keypoint_result_repository.py:98-109 | the loop with `continue` computes exactly the skipping copy |
| KeypointRepository.FindResultByContract | src/repositories/keypoint_result_repository.py:45-111 | none exactly when the contract does not exist; otherwise the report |
| KeypointRepository.ReportOfResults | src/repositories/keypoint_result_repository.py:88-109 | an existing contract's report lists exactly its ranked results, one for one |
| KeypointRepository.RankedHaveIds | src/repositories/keypoint_result_repository.py:98-101 | every ranked row carries a result id, so none is skipped |
| KeypointRepository.RankedAreStoredResults | src/repositories/keypoint_result_repository.py:73-86 | every reported entry is some stored result of the contract |
| KeypointRepository.StoredResultsAreRanked | src/repositories/keypoint_result_repository.py:73-86 | every stored result of the contract is reported |
| KeypointRepository.KeypointStore.CreateByAi | src/repositories/keypoint_result_repository.py:7-18 | always inserts the row with its rate, or a storage error with no change |
| KeypointRepository.KeypointStore.CreateByUser | src/repositories/keypoint_result_repository.py:21-42 | an existing pair is a ValueError; otherwise one row with a NULL rate |
| KeypointRepository.KeypointStore.DeleteKeypointResult | src/repositories/keypoint_result_repository.py:114-118 | the row removed, and true exactly when a row had that id |
| KeypointRepository.UserAddKeepsPairsUnique | src/repositories/keypoint_result_repository.py:24-39 | a user add never makes a pair's count exceed one |
| KeypointRepository.AiAddCanDuplicate | src/repositories/keypoint_result_repository.py:7-18 | two AI adds of a pair leave it twice |
| KeypointService.AddByUser | src/services/keypoint_result_service.py:8-41 | the user is validated first; a duplicate pair is a ValueError; otherwise a NULL-rate row |
| KeypointService.AddByAi | src/services/keypoint_result_service.py:44-73 | a rate outside [0, 100] is a ValueError before any write; otherwise the row with its rate |
| KeypointService.GetAllResults | src/services/keypoint_result_service.py:76-100 | fails exactly as user validation does; otherwise the reply |
| KeypointService.ResultsReply | src/services/keypoint_result_service.py:95-100 | carries the contract id, and an empty list for an unknown contract |
| KeypointService.UnknownLooksEmpty | src/services/keypoint_result_service.py:95-100 | an unknown contract and one without results get the same reply |
| KeypointService.ReplyCountsAndOrder | src/services/keypoint_result_service.py:95-100 | the reply has one entry per stored result, highest rate first, NULL rates last |
| KeypointService.DeleteKeypointResult | src/services/keypoint_result_service.py:103-127 | the user is validated first; nothing deleted is a ValueError; otherwise true |

## Left out

- HTTP transport to the OCR vendor is a parameter. Not modelled: timeouts, reading the file, and `check_server_status`, `download_img` and `get_worker_status`.
- The OCR service's thread pool and singleton are not modelled. The job runs synchronously in `OcrService.ProcessFile`.
- `get_ocr_file_by_id` and the contract repository's `find_by_id` are not modelled. No core operation relies on them.
- MySQL is not modelled: cursors, commits and the retry loop. A database error raised while a statement runs is a `fails` flag per call, or a `faults` oracle over the OCR job's calls. `create_result_by_user` gets one flag for its SELECT and INSERT together.
- ContractRepository.ContractStore.Apply, and so the four transitions, does not model a failed connection. After its retries `get_db_connection` raises a plain Exception (src/database.py:18). `open_db` (src/base_repository.py:7) runs before the `try` of each contract-repository method, so that exception propagates instead of giving False. Here `fails` covers only errors inside the `try`.
- OcrRepository.OcrStore.SaveOcrFile, UpdateOcrFile, SaveOcrPage and SaveOcrBoxes do not model a failed connection either. The plain Exception from `get_db_connection` is not a `mysql.connector.Error`, so `except Error` (e.g. src/repositories/ocr_repository.py:44) does not catch it, and the call raises instead of returning None or False.
- OcrService.ProcessOcr therefore does not model a job that leaves early because a storage call raised. In the source that leads to the ERROR branch at src/services/ocr_service.py:189-195, while the model continues as if the call had returned None or False.
- Users.FindByLoginId, Users.FindByIbkId and ContractRepository.FindByFilePath compare strings exactly. MySQL's WHERE compares them under the column's collation, and MySQL's default collation ignores case and trailing spaces. The same holds for the duplicate checks ContractService.UploadCheck, UserService.RegisterCheck, TermsService.AddCheck, TermsService.EditCheck and ChecklistService.AddCheck. Under such a collation the model passes a value the database finds as a duplicate ("Loan" after "loan"), and the login lookup misses a row the database matches.
- `NOW()` and `datetime.now()` are supplied values, and execution times are opaque.
- bcrypt and JWT are uninterpreted parameters. The refresh-token helper at src/auth/jwt_utils.py:68-70
  calls `datetime.timezone` on the `datetime` class, which has no such attribute, so as written it
  raises AttributeError. A successful login in the model assumes a token library that works.
- UserService.UpdateOutcome, UserService.UserStore.UpdateUser and UserService.DeleteOutcome assume a user repository with `update` and `delete` methods. src/repositories/user_repository.py defines neither: it has only `find_by_login_id`, `find_by_ibk_id`, `create_user`, `update_refresh_token`, `find_by_id` and `find_all`. As written, `update_user` (src/services/user_service.py:253) and `delete_user` (src/services/user_service.py:294) therefore raise AttributeError whenever their checks pass. The model gives those paths an update that writes the set fields and reports `updated`, and a delete whose outcome is a parameter that does not change the user table.
- UserService.UpdateOutcome: an explicit null in an update is not told apart from a field that was not sent.
- UserService.UpdateOutcome: a storage error has no separate path. It is covered by the repository's boolean.
- Floats: `confidence_score`, `rotate` and `match_rate` are reals with no arithmetic. A NaN match rate is not modelled.
- Pydantic validation and coercion of request bodies and of the vendor's coordinate types are not modelled. Coordinates are integers.
- Text.Lower lower-cases ASCII letters only. Python's `str.lower` also maps other letters, so the endings checks are exact only for ASCII names.
- OcrRepository.LatestFile picks one of several files with the same newest created_date. MySQL promises no order among them.
- KeypointRepository.ByRateDesc picks one order among rows with equal rates. MySQL promises none.
- KeypointRepository.JoinRows: contract ids are assumed unique, so the join has one contract row.
- Exception messages are not modelled, only each exception's kind.
- `UserService.check_system_admin` is the same as `BaseService.CheckSystemAdmin`, so it is modelled once.
- `get_all_querys`, `get_all_contracts` and the contract listings return table rows as they are. The row-to-model mapping is the identity.
- The reply of `add_query` and `edit_query` has its "else ValueError" branch left out. The repository raises rather than returning a false value, so that branch is unreachable.
- The rowcount-0 branches of `delete_query` and `delete_question` are also left out. The row has just been found to exist, so they are unreachable.
- TermsService.TermsStore.DeleteQuery states that the table shrinks; this stands in for the unreachable rowcount check.
- The routers, `main.py`, configuration and the pass-through or broken repositories and services are not part of this model (special, PEF, checklist result, instruction, document).

## Findings

| source | as written | input that shows it | evidently intended | confidence | as-written member | corrected member |
|---|---|---|---|---|---|---|
| src/repositories/contract_repository.py:127-130 | `finish_keypoint` passes `(contract_id)` as the parameters. That is a bare integer, not a one-element tuple. mysql.connector rejects it, so the method rolls back and returns False. | any contract in state 3, e.g. id 1, with `finish_keypoint(1)` | set current_state to 4 on that contract and return True, like the other three transitions | medium, not executed | ContractRepository.FinishKeypointAsWrittenNeverFinishes | ContractRepository.ContractStore.FinishKeypoint |
