# Change-request approval lifecycle, modelled in Dafny

The application is a thin React front end over a hosted database (Supabase).
A submitter creates an IT change request with a title, a description, a change
type, an impact level, the expected downtime, an optional rollback plan, an
approver address and attachments. The named approver then moves the request
through Pending, Approved (or Denied), Implemented and Completed. Around that
lifecycle the front end offers four more things: a dashboard that filters and
searches requests, an e-mail notification to the approver, a document export,
and an attachment panel that uploads files one after another.

This project models that core. There is one Dafny module per source file:

| module | source file | form |
|---|---|---|
| `Types` | src/types.ts | datatypes, the text of each enumeration value, and the record-to-row column mapping |
| `Approval` | src/components/ApprovalWorkflow.tsx | the action table as a function; class `Panel` holds the `isUpdating` flag |
| `RequestDetails` | src/components/RequestDetails.tsx | approver predicate and badge colour; class `View` holds the loaded request |
| `Dashboard` | src/components/Dashboard.tsx | the filter and search over the fetched list |
| `Docx` | src/utils/docx.ts | the seven-row export table and the file name |
| `Email` | src/utils/email.ts | subject, body lines and message; class `Outbox` records what was sent |
| `FileUpload` | src/components/FileUpload.tsx | extension and path construction; class `Panel` with the upload loop and the two removals |
| `CreateRequest` | src/components/CreateRequest.tsx | class `Form` with the submit protocol |
| `NewRequestPage` | src/routes/new/page.tsx | class `Form` with the minimal submit |

Three shared modules support them:

- `Store` models the database and the storage bucket as class `Backend`. Its fields are the session, the `change_requests` rows, the `attachments` rows and the stored object paths. Every call takes its outcome as a parameter, so each error path is reachable. The same goes for the identifiers the database assigns.
- `Sequences` holds JavaScript's order-preserving `filter`.
- `Text` holds ASCII `toLowerCase` and `includes`.
- `RequestDetails.View.callerBusy` is a ghost log, not state of the program. The page's update appends the caller's busy flag to it, so that `Approval.Panel.HandleStatusChange` can state that the flag was up while the update ran; concurrent clicks themselves are not modelled.

Two choices in the model follow the code rather than the types:

- A request's `status` is kept as text, not as the `Status` enumeration. The code writes whatever string a button hands it, and src/routes/new/page.tsx:27 stores lower-case `pending`. `Types.ParseStatus` reads the text back case-insensitively, the way the components do.
- The record uses the camelCase properties of src/types.ts. The inserts use snake_case columns. `Types.ColumnName` is the explicit mapping, and `Types.RowRoundTrip` proves that it loses nothing.

Several behaviours are modelled as the code has them:

- Status changes are not validated when they are written. `RequestDetails.View.HandleStatusUpdate` accepts any text. The only gate is the button table in `Approval.Actions`, and `Approval.Panel.PressAction` proves that every pressable button is a legal lifecycle move.
- A missing user reads as the empty address. No authorization error is raised.
- Deleting an attachment removes its row and leaves the stored object.
- There is no size limit on uploads.
- There is no rollback after a failed upload.
- The attachments that the creation form records have a name and no stored object.

## Model

| member | source | states |
|---|---|---|
| Types.EnumerationsComplete | src/types.ts:1-3 | the change types are exactly five values, the impact levels three and the statuses five, each listed once |
| Types.NamesRoundTrip | src/types.ts:1-2 | reading the stored name of a change type or impact level gives back that value |
| Types.ParseStatus | src/types.ts:3 | text reads as a status exactly when its lower-cased form is that status's key, and as none when it matches no key |
| Types.ParseStatusSpellings | src/types.ts:3 | the capitalised and the lower-case spelling of each status both read back as that status |
| Types.StatusKeyIsLowerName | src/components/ApprovalWorkflow.tsx:25-26 | the lower-case keys the switch compares against are the lower-cased status names |
| Types.ToRowColumns | src/types.ts:10-23 | every defined property of a request sits under its own column, and an undefined rollback plan leaves its column absent |
| Types.RowRoundTrip | src/types.ts:10-23 | a request written as a row under the snake_case columns reads back as the same request |
| Types.NamingsInjective | src/components/CreateRequest.tsx:40-48 | distinct properties have distinct property names and distinct column names |
| Text.IncludesOccurrence | src/components/Dashboard.tsx:43-44 | the `includes` search succeeds exactly when the needle occurs at some offset |
| Text.UpperNeverLower | src/components/Dashboard.tsx:42 | a lower-cased string never equals text that contains an upper-case letter |
| Sequences.FilterMembership | src/components/Dashboard.tsx:41 | an element is in the filtered list exactly when it is in the input and accepted |
| Sequences.FilterIsSubsequence | src/components/Dashboard.tsx:41 | filtering keeps the input's order |
| Sequences.FilterIdempotent | src/components/Dashboard.tsx:41-46 | filtering a filtered list again changes nothing |
| Store.MessageOf | src/components/CreateRequest.tsx:78 | an `Error` shows its own message and any other thrown value shows the fallback text |
| Store.SetStatus | src/components/RequestDetails.tsx:51-54 | the update sets the status column of the rows with the given id and leaves every other row and column as it was |
| Store.Backend.SelectAttachments | src/components/FileUpload.tsx:18-27 | the query returns exactly the rows of the request, or nothing when it fails; the model returns them in insertion order (see Left out) |
| Approval.Actions | src/components/ApprovalWorkflow.tsx:22-72 | a non-approver is offered nothing, and Deny is never offered without Approve |
| Approval.ActionsTable | src/components/ApprovalWorkflow.tsx:25-70 | in any letter case, pending offers {Approved, Denied}, approved offers {Implemented}, implemented offers {Completed}, and Denied, Completed or unknown text offer nothing |
| Approval.StepIsNext | src/components/ApprovalWorkflow.tsx:25-71 | the offered moves are exactly the lifecycle moves: one stage forward on the main line, or Pending to Denied |
| Approval.ActionsFollowLifecycle | src/components/ApprovalWorkflow.tsx:25-71 | for stored text in any letter case, a target is offered exactly when the text names a status and the target is a lifecycle move from it |
| Approval.TerminalStatuses | src/components/ApprovalWorkflow.tsx:69-70 | a status offers nothing exactly when it is Denied or Completed |
| Approval.StepAdvancesOneStage | src/components/ApprovalWorkflow.tsx:25-71 | every offered move advances exactly one stage: never backward, never skipping, never staying put |
| Approval.TrajectoryFromPending | src/components/ApprovalWorkflow.tsx:25-71 | a chain of offered moves from Pending reaches stage i after i moves, has at most four statuses and never revisits one |
| Approval.StatusNameInjective | src/components/ApprovalWorkflow.tsx:78-94 | the four stage labels compared by the progress bar are distinct |
| Approval.AtMostOneHighlighted | src/components/ApprovalWorkflow.tsx:78-94 | at most one stage of the progress bar is highlighted |
| Approval.LowercasePendingMismatch | src/components/ApprovalWorkflow.tsx:25-94 | lower-case "pending" highlights no stage yet is offered Approve and Deny; "Denied" highlights no stage and is offered nothing |
| Approval.EnabledActions | src/components/ApprovalWorkflow.tsx:31-62 | while an update runs no button can be pressed; otherwise the enabled buttons are the offered ones |
| Approval.Panel.HandleStatusChange | src/components/ApprovalWorkflow.tsx:13-20 | the page's update runs exactly once and logs the panel's flag as raised while it runs; the flag is lowered afterwards whether or not the update failed; the update's effect on the stored rows and the page's record is the page's |
| Approval.Panel.PressAction | src/components/ApprovalWorkflow.tsx:29-66 | pressing an enabled button requires the approver, the stored status names a status, and the written status is a lifecycle move from it; on success the stored rows become `SetStatus` of the old rows with that status name, on failure they are unchanged, and the page's copy follows only on success |
| RequestDetails.CurrentEmail | src/components/RequestDetails.tsx:162 | a missing user or a user without an address reads as the empty address |
| RequestDetails.IsApproverCases | src/components/RequestDetails.tsx:162 | without a user the approver flag holds exactly for an empty approver address, and with a user exactly for that user's address |
| RequestDetails.StatusColor | src/components/RequestDetails.tsx:170-185 | the gray default is returned exactly for text that names no status |
| RequestDetails.StatusColorProperties | src/components/RequestDetails.tsx:170-185 | the colour ignores letter case and differs between any two statuses |
| RequestDetails.RollbackShownConsistently | src/components/RequestDetails.tsx:145-150 | for one and the same record, the rollback section shows exactly when the e-mail has a rollback line and the export shows the plan rather than the placeholder; the program hands the page and the other two differently named properties (see Left out) |
| RequestDetails.WithStatus | src/components/RequestDetails.tsx:58 | the new record has the new status and agrees with the old one in every other field |
| RequestDetails.View.HandleStatusUpdate | src/components/RequestDetails.tsx:49-62 | any status text is written; the local record follows only when the store accepted it, and an absent record stays absent; the caller's busy flag at the call is appended to the page's log |
| RequestDetails.View.HandleSendEmail | src/components/RequestDetails.tsx:70-79 | the message goes to exactly the request's approver, the result is the send's success flag, and nothing is sent without a request |
| RequestDetails.View.HandleDownload | src/components/RequestDetails.tsx:64-68 | the document is the export of the loaded request, and there is none without a request |
| Dashboard.FilteredRequests | src/components/Dashboard.tsx:41-46 | the shown list is an order-preserving part of the fetched one, holds exactly the requests matching both the status filter and the search, and is shorter by exactly the number of rejected requests |
| Dashboard.FilterTwice | src/components/Dashboard.tsx:41-46 | filtering the shown list again shows the same list |
| Dashboard.NoCriteriaShowsAll | src/components/Dashboard.tsx:42-44 | the "all" filter with an empty search shows every request, in order |
| Dashboard.CriteriaMeaning | src/components/Dashboard.tsx:42-44 | an empty search matches every request, and a filter other than "all" keeps exactly the requests whose lower-cased status equals it |
| Dashboard.UppercaseFilterShowsNothing | src/components/Dashboard.tsx:42 | a filter other than "all" containing an upper-case letter shows nothing, because only the status side is lower-cased |
| Dashboard.StatusColor | src/components/Dashboard.tsx:126-141 | the dashboard's colour agrees with the request page's on every input |
| Docx.RollbackText | src/utils/docx.ts:50 | an undefined or empty plan shows "N/A" and any other plan shows itself |
| Docx.Rows | src/utils/docx.ts:15-59 | the table has seven rows labelled Title, Description, Change Type, Impact Level, Expected Downtime, Rollback Plan and Status, in that order, each holding its field's value, and the rollback cell is never empty |
| Docx.LabelTextInjective | src/utils/docx.ts:19-55 | the seven row labels are distinct texts |
| Docx.RowsLookup | src/utils/docx.ts:17-58 | looking up any label in the table finds that label's field value |
| Docx.ExportRoundTrip | src/utils/docx.ts:15-59 | the table read back gives the request's fields, with an empty plan or the literal "N/A" read as no plan |
| Docx.ExportKeepsRealPlans | src/utils/docx.ts:50 | a non-empty plan other than "N/A" survives the export unchanged |
| Docx.FileName | src/utils/docx.ts:66 | the file name is "change-request-", the id, then ".docx" |
| Docx.FileNameRoundTrip | src/utils/docx.ts:66 | the id can be read back from the file name |
| Docx.Generate | src/utils/docx.ts:5-66 | the document has the fixed heading, its rows are exactly the seven export rows in order and read back as the request's fields, and its file name is the one made from the request's id, which it determines |
| Email.Subject | src/utils/email.ts:58 | the subject is "Change Request: " followed by the title |
| Email.Lines | src/utils/email.ts:30-37 | the first five lines are Description, Change Type, Impact Level, Expected Downtime and Status, in that order, each with its field's value; a sixth, last, rollback line appears exactly when the plan is defined and non-empty; no line repeats the title |
| Email.Compose | src/utils/email.ts:24-59 | the sender is the fixed address, the recipients are exactly the given list, and subject, preview and heading coincide |
| Email.LinesAgreeWithExport | src/utils/email.ts:30-37 | every body line carries the same value as the export row with the same label |
| Email.RollbackLineVersusPlaceholder | src/utils/email.ts:35-37 | the e-mail omits the rollback line exactly where the export shows the placeholder, unless the plan is literally "N/A" |
| Email.Outbox.SendChangeRequestEmail | src/utils/email.ts:51-66 | success is reported exactly when the transport does not throw, and only then is the message sent |
| FileUpload.ExtensionIsLastSegment | src/components/FileUpload.tsx:48 | the extension has no dot, ends the name, and is either the whole name or preceded by a dot |
| FileUpload.ExtensionWithoutDot | src/components/FileUpload.tsx:48 | a name without a dot is its own extension |
| FileUpload.ExtensionAfterDot | src/components/FileUpload.tsx:48 | whatever precedes the last dot, the extension is the text after it |
| FileUpload.PathKeepsExtension | src/components/FileUpload.tsx:48-50 | the storage path has the same extension as the original file |
| FileUpload.FirstSegment | src/components/FileUpload.tsx:50 | the first segment of a path has no '/', starts the path, and is either the whole path or followed by '/' |
| FileUpload.PathScopedToRequest | src/components/FileUpload.tsx:50 | for an id without '/', the first segment of every storage path made for it is that id |
| FileUpload.RemoveIndex | src/components/FileUpload.tsx:88 | removal at a valid index drops exactly that element and keeps the rest in order; any other index leaves the list unchanged |
| FileUpload.UploadedCount | src/components/FileUpload.tsx:47-75 | the count is the index of the first failing file: every earlier file succeeded and the file at the count failed |
| FileUpload.Records | src/components/FileUpload.tsx:64-72 | the records of the first k files are one per file, in order: each carries its step's record id, the request id, the file's own name, the public URL of its storage path and the session user |
| FileUpload.RecordsLinkStoredObjects | src/components/FileUpload.tsx:59-72 | every inserted record belongs to the request and links to the object stored for the same file |
| FileUpload.UploadAll | src/components/FileUpload.tsx:47-75 | files are processed in order; the records of the files before the first failure are inserted; their objects stay stored, plus the object of a file whose record insert failed |
| FileUpload.UploadOne | src/components/FileUpload.tsx:48-74 | a file succeeds exactly when both calls succeed; its object is stored whenever the storage call succeeds, and its record, linking that object, is inserted only after that |
| FileUpload.Panel.HandleUpload | src/components/FileUpload.tsx:42-85 | an empty selection changes nothing; otherwise the loop runs, the flag is lowered at the end, and the selection is cleared and the list reloaded only when every file succeeded |
| FileUpload.Panel.SelectFiles | src/components/FileUpload.tsx:29-40 | a new selection replaces the old one |
| FileUpload.Panel.FetchAttachments | src/components/FileUpload.tsx:18-27 | the local list becomes the request's rows unless the query fails |
| FileUpload.Panel.HandleRemoveFile | src/components/FileUpload.tsx:87-89 | the selection loses exactly the file at the index |
| FileUpload.Panel.HandleDeleteAttachment | src/components/FileUpload.tsx:91-104 | only after the store delete succeeds does the local list lose the entries with that id; the others keep their order |
| CreateRequest.RequestRowColumns | src/components/CreateRequest.tsx:40-49 | each form input sits under its own column (approver under approver_email, downtime under expected_downtime), the session user under user_id, and nothing else |
| CreateRequest.InsertedRowReadsBack | src/components/CreateRequest.tsx:37-52 | once the table fills in the id, status and timestamps, the inserted row reads back as the request the form describes |
| CreateRequest.OptionsAreEnumerations | src/components/CreateRequest.tsx:136-159 | the offered change types and impact levels are exactly the enumeration values, and the placeholder is none of them |
| CreateRequest.ValidatedSelectionsParse | src/components/CreateRequest.tsx:106-202 | a form that passes the browser's required-field check names a valid change type and impact level |
| CreateRequest.AttachmentRowsFor | src/components/CreateRequest.tsx:61-64 | one row per selected file, in order, with the file's name and the new request's id |
| CreateRequest.AttachmentsListedUnderNewRequest | src/components/CreateRequest.tsx:59-74 | listing the new request's attachments afterwards gives exactly the rows for the selected files, in order |
| CreateRequest.Form.HandleFileUpload | src/components/CreateRequest.tsx:18-22 | a new selection replaces the old one |
| CreateRequest.Form.HandleSubmit | src/components/CreateRequest.tsx:24-82 | without a session nothing is written and the error is "User is not logged in"; a failed request insert writes no attachments; no attachment insert happens without files; navigation happens exactly when every step succeeded; loading ends false |
| NewRequestPage.MinimalRow | src/routes/new/page.tsx:23-31 | the row holds exactly title, description, lower-case status "pending", user_id and created_at |
| NewRequestPage.InitialStatusReadings | src/routes/new/page.tsx:27 | the inserted status reads as Pending for the colour and the action table, yet highlights no progress stage |
| NewRequestPage.MinimalRowLacksColumns | src/routes/new/page.tsx:23-31 | the row has no change type or approver column, so it does not read back as a complete request |
| NewRequestPage.Form.HandleSubmit | src/routes/new/page.tsx:12-47 | without a session nothing is written and the error is "No active session"; an insert error sets the message and does not navigate; success navigates and keeps any earlier error; the flag ends false |

## Left out

- Fetching and routing are not modelled: fetch.ts, src/hooks/useChangeRequests.ts, src/routes/page.tsx, the initial load in RequestDetails.tsx and the route guard in src/App.tsx. They consist of session checks and remote queries. Their ordering by creation time happens in the database.
- The client configuration and global headers in src/lib/supabase.ts and src/supabaseClient.ts hold no logic.
- src/lib/resend.ts is not part of this model. The transport is a call that either returns or throws, and whether it throws is a parameter.
- HTML rendering of the e-mail, building the `.docx` file and `saveAs` are library calls. Only the content handed to them is modelled.
- `Math.random` and `new Date()` are parameters: the fresh name in `UploadStep` and `now` in `NewRequestPage.Form.HandleSubmit`. The public address of the bucket is the constant prefix `Backend.publicBase`.
- JSX markup, styling, `alert`/`console` output, React re-rendering and effect scheduling are not modelled. Neither are concurrent clicks or async interleaving: every handler runs to completion on its own.
- The per-input `onChange` setters of the two forms only copy a typed value into state.
- Text.Lower: lower-cases ASCII letters only; `toLowerCase` also maps other Unicode letters.
- `Store.Backend.Upload` records every path it is given, in order. Rejecting a duplicate path is left to the outcome parameter. Random names make duplicates unlikely.
- Database defaults (id, status, timestamps) are parameters or are left out. The database's own constraints are not modelled.
- `type="email"` validation of the approver input is not modelled. `CreateRequest.PassesValidation` checks only that the required inputs are non-empty.
- The request page hands the loaded row, with its snake_case columns, to the export and the e-mail (src/components/RequestDetails.tsx:66,72). Those read the camelCase `changeType`, `impactLevel`, `expectedDowntime` and `rollbackPlan` (src/utils/docx.ts:32,38,44,50; src/utils/email.ts:31-36), which that row does not have. In the program the export's Change Type, Impact Level and Expected Downtime cells therefore receive an undefined value and its Rollback Plan cell always reads "N/A"; the e-mail's Change Type, Impact Level and Expected Downtime lines carry no value and it never has a rollback line. The page itself reads the snake_case columns (src/components/RequestDetails.tsx:124-148). The model gives the page, the export and the e-mail one and the same record, so it does not capture this mismatch, and `RequestDetails.RollbackShownConsistently` holds only for that single record.
- RequestDetails.CurrentEmail: reads `supabase.auth.user()` (src/components/RequestDetails.tsx:162) by its evident intent, the signed-in user's address. That call belongs to the older client API, while every other auth call in the code uses the newer one (`getSession`, `getUser`, `setSession`); as written it most likely throws while the page renders. The model does not capture that failure.
- Store.Backend.SelectAttachments: the query at src/components/FileUpload.tsx:19-22 has no ordering clause, so the data store promises no order. The model returns the rows in insertion order, and the "in order" parts of `CreateRequest.AttachmentsListedUnderNewRequest`, `FileUpload.Panel.FetchAttachments` and `FileUpload.Panel.HandleUpload` rest on that choice; only which rows are returned is promised by the source.
