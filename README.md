# R2Uploader core, modelled in Dafny

R2Uploader is a desktop application that uploads files, pasted text and pasted
images to a Cloudflare R2 bucket, an S3-compatible object store. This project
models its core and proves properties of that model.

- **The upload engine** (`src-tauri/src/r2.rs`), in modules `Chunking`, `R2` and
  `R2Properties`.
  - `r2_upload` pushes an initial `Uploading{0,0}` event for every file. It
    spawns one task per file and registers each task in `UPLOAD_TASKS`.
  - Each task uploads inline content with one PUT.
  - A file below 5 MiB also goes up with one PUT. A file of 5 MiB or more goes
    up as a multipart upload: create, then a chunk loop of 5 MiB parts that reports
    progress after each part, then complete.
  - When the multipart upload opens, its id is recorded in the task's
    `UPLOAD_TASKS` entry, and the client and key in `UPLOAD_TASKS_INFO`.
  - Each task that runs ends with exactly one terminal event. A task whose
    handle was aborted before it ran pushes none.
  - `r2_cancel_upload` aborts the task's handle. When an upload id and client
    information are recorded, it also sends an abort for the multipart upload.
    It then removes both registry entries.
- **The command set the application registers** (`src-tauri/src/manager.rs`),
  in module `Manager`. `src-tauri/src/lib.rs` declares only `mod manager` and
  registers its commands `r2_upload`, `get_upload_status`, `preview_file`,
  `get_file_details` and `ping_bucket`; it does not declare `r2.rs`.
  - The `UPLOAD_STATUS` store and the upload command that writes the per-task
    status strings.
  - `get_upload_status`: a snapshot that then prunes the "success" entries.
  - The walk that flattens a picked path into file details.
  - `preview_file`.
- **The front end's helpers** (`src/lib/tools.ts`), in module `Tools`: remote
  names of picked files, image sniffing, timestamped names, the pending-upload
  list `filesState.files`, and two field-merging helpers.
- **The front end's shared state** (`src/lib/store.svelte.ts`), in module
  `AppStore`: the alert message and the proxy settings.

## How the model is built

- **The outside world is a parameter.** `ObjectStore.Env` holds two total
  functions:
  - `store` gives the reply to each store request;
  - `fs` gives the result of each file-system operation.
  Running the same code against the same `Env` therefore yields the same
  requests and results.
- **Mutable state is a class.**
  - The registries of `r2.rs`, the requests already sent and the events already
    pushed are the fields of `R2.Engine`.
  - `UPLOAD_STATUS` is the field of `Manager.StatusStore`.
  - `filesState.files` is the field of `Tools.FilesState`.
  - `proxySettings` is `AppStore.ProxySettings`.
  - `alertMessage` is `AppStore.AlertMessage`.
- **Each state-changing method is proved against a specification function.**
  Examples: `R2.StreamSpec` and `R2.ChunkLoop` for the upload task, `Manager.Walk`
  for the details walk, `Tools.EntriesOf` for `parsePaths`. The properties the
  source promises are then proved as lemmas about those functions.
- **Files:**
  - `wrappers.dfy`: `Option`, `Result`.
  - `types.dfy`: the records of `typ.rs`.
  - `objectstore.dfy`: requests, replies, the environment.
  - `chunking.dfy`: the chunk plan.
  - `r2.dfy`: the engine.
  - `r2_properties.dfy`: its properties.
  - `manager.dfy`, `tools.dfy`, `store.dfy`.

## Model

| member | source | states |
|---|---|---|
| ObjectStore.UnitResult | src-tauri/src/r2.rs:203-218 | a put, complete or abort succeeds exactly when the store replies Ok; otherwise the store's error text is returned |
| ObjectStore.UploadIdResult | src-tauri/src/r2.rs:221-233 | the upload id is the one the reply carries; a reply without one is the error "Failed to get upload ID"; a store error is passed through |
| ObjectStore.PartResult | src-tauri/src/r2.rs:260-285 | a part is the reply's ETag paired with the part number that was sent; a reply without an ETag is "Failed to get ETag"; a store error is passed through |
| Chunking.UsesSinglePut | src-tauri/src/r2.rs:304 | defines the strategy choice: one PUT exactly for a file below CHUNK_SIZE (5 MiB); `R2Properties.StreamSmallFile` and `StreamIsMultipart` use it |
| Chunking.ChunkLen | src-tauri/src/r2.rs:345-354 | the next chunk is min(CHUNK_SIZE, remaining bytes) and is 0 exactly when every byte has been sent |
| Chunking.PlanFrom | src-tauri/src/r2.rs:339-367 | defines the chunks the loop walks through from a byte offset and part number on; its shape is proved by `Chunking.PlanFromShape` |
| Chunking.Plan | src-tauri/src/r2.rs:339-367 | defines the whole file's plan, from byte 0 and part 1; `Chunking.PlanShape` and `PlanCount` prove its shape and length |
| Chunking.PlanFromShape | src-tauri/src/r2.rs:339-386 | from any offset the loop's chunks number ceil(rest / 5 MiB); they are numbered consecutively, start 5 MiB apart, are non-empty, stay inside the file and add up to the rest of the file |
| Chunking.PlanChunkAt | src-tauri/src/r2.rs:344-367 | the i-th chunk starts at uploaded + i·5 MiB, has part number partNumber + i, and is non-empty, at most 5 MiB and inside the file |
| Chunking.PlanEndsAtSize | src-tauri/src/r2.rs:344-367 | when bytes remain, the plan is non-empty and its last chunk ends exactly at the file size |
| Chunking.PlanShape | src-tauri/src/r2.rs:339-367 | the whole file gives ceil(size / 5 MiB) parts numbered 1, 2, …; part k starts at k·5 MiB and the lengths sum to the size |
| Chunking.PlanCount | src-tauri/src/r2.rs:339-367 | the whole file is planned as ceil(size / 5 MiB) chunks |
| Chunking.MultipartHasParts | src-tauri/src/r2.rs:303-326 | a file that is not sent with one PUT has at least one part, and that part is 5 MiB from offset 0 |
| R2.NewClient | src-tauri/src/r2.rs:170-200 | the client keeps the bucket; its domain is the custom domain, or the account's R2 endpoint when there is none |
| R2.TerminalStatus | src-tauri/src/r2.rs:88-100 | the status a task ends with is terminal and never Cancelled; it is Success exactly when the task succeeded, and Error(message, "UPLOAD_ERROR") otherwise |
| R2.Engine.EmitProgress | src-tauri/src/r2.rs:111-131 | exactly one "upload-progress" event is appended |
| R2.ChunkLoop | src-tauri/src/r2.rs:344-386 | defines what the chunk loop does from an offset on: read, upload, record, report, ending at the first failed read or part; `R2Properties.ChunkLoopFollowsPlan` and `ChunkLoopProgress` prove it follows the plan |
| R2.StreamSpec | src-tauri/src/r2.rs:288-390 | defines what `stream_upload_file` does: open and metadata errors, one PUT below 5 MiB, the multipart branch otherwise; `R2.Engine.StreamUploadFile` is proved equal to it and `R2Properties.Stream*` state its properties |
| R2.MultipartSpec | src-tauri/src/r2.rs:330-389 | defines the multipart branch: create, the chunk loop from byte 0 and part 1, complete with every part; `R2Properties.Multipart*` state its properties |
| R2.ContentSpec | src-tauri/src/r2.rs:203-218 | defines `upload_content`: one PUT of the inline text with the store's result; `R2.Engine.UploadContent` is proved equal to it |
| R2.TaskSpec | src-tauri/src/r2.rs:77-86 | defines the spawned task's dispatch on the file source; `R2.Engine.RunTask` and `R2Properties.TaskEventsShape` use it |
| R2.Registered | src-tauri/src/r2.rs:52-105 | defines UPLOAD_TASKS after `(handle, None)` is inserted for each file in turn; `R2Properties.RegisteredEntries` and `RegisteredOthers` state its entries |
| R2.RecordSession | src-tauri/src/r2.rs:328-331 | defines UPLOAD_TASKS after a task stores the upload id it opened, in an existing entry only; `R2.Engine.MultipartUpload` is proved against it |
| R2.RecordInfo | src-tauri/src/r2.rs:333-337 | defines UPLOAD_TASKS_INFO after a task opened a multipart upload; `R2.Engine.MultipartUpload` is proved against it |
| R2.CancelCalls | src-tauri/src/r2.rs:143-151 | defines the abort `r2_cancel_upload` sends: one only when the entry holds an upload id and the client information is there; `R2.Engine.R2CancelUpload` and `R2Properties.CancelTwice` use it |
| R2.Engine.R2Upload | src-tauri/src/r2.rs:38-109 | always Ok; pushes the initial events; spawns the tasks; registers every file with no upload id; sends no request and touches neither `UPLOAD_TASKS_INFO` nor the aborted handles |
| R2.Engine.RunTask | src-tauri/src/r2.rs:75-103 | an aborted task does nothing; otherwise the task dispatches on the source, sends exactly the requests of its trace, pushes its progress and then one terminal event, and records the session it opened |
| R2.Engine.UploadContent | src-tauri/src/r2.rs:203-218 | one PUT of the inline text; its result is the store's |
| R2.Engine.CreateMultipartUpload | src-tauri/src/r2.rs:221-233 | one create request; the result follows UploadIdResult |
| R2.Engine.CompleteMultipartUpload | src-tauri/src/r2.rs:235-258 | one complete request carrying the given parts; the result is the store's |
| R2.Engine.UploadPart | src-tauri/src/r2.rs:260-285 | one upload-part request; the result follows PartResult |
| R2.Engine.AbortMultipartUpload | src-tauri/src/r2.rs:392-406 | one abort request; the result is the store's |
| R2.Engine.StreamUploadFile | src-tauri/src/r2.rs:288-390 | the result, requests, events and both registries are those of StreamSpec: open and metadata errors come first, then one PUT below 5 MiB, otherwise the multipart upload |
| R2.Engine.MultipartUpload | src-tauri/src/r2.rs:325-389 | create, record the upload id in an existing task entry and the client and key in `UPLOAD_TASKS_INFO`, run the chunk loop, then complete with its parts; the first failure ends the upload |
| R2.Engine.UploadChunks | src-tauri/src/r2.rs:339-386 | the loop sends exactly ChunkLoop's requests, pushes one progress event per uploaded part, and returns its parts or its first error |
| R2.Engine.SendChunk | src-tauri/src/r2.rs:356-385 | a failed read sends nothing; otherwise one part request is sent, and a successful part pushes one progress event at the new byte count |
| R2.Engine.R2CancelUpload | src-tauri/src/r2.rs:133-160 | always Ok; an unknown id changes nothing; a known id has its handle aborted and both entries removed, and an abort is sent exactly when an upload id and client information were recorded |
| R2Properties.FollowsPlanGlue | src-tauri/src/r2.rs:361-367 | one part, taken from the store's reply to its chunk's request, in front of a loop that follows the rest of the plan follows the whole plan |
| R2Properties.ChunkLoopFollowsPlan | src-tauri/src/r2.rs:339-386 | the i-th part request uploads the i-th planned chunk; the i-th progress report is that chunk's end; only the failing request has no report; on success every planned part is uploaded, and each part is the ETag the store replied to that chunk's request, with its part number |
| R2Properties.PlanEndsRise | src-tauri/src/r2.rs:344-367 | the ends of planned chunks rise strictly |
| R2Properties.ChunkLoopProgress | src-tauri/src/r2.rs:366-384 | progress reports rise strictly, are above the start and at most the size, and on success the last one is the size |
| R2Properties.TwelveMiBPlan | src-tauri/src/r2.rs:339-367 | a 12 MiB file is sent as parts of 5, 5 and 2 MiB numbered 1, 2, 3 |
| R2Properties.StreamSmallFile | src-tauri/src/r2.rs:303-323 | below 5 MiB no multipart upload is opened and nothing is reported; the only request is one PUT of the whole file, or none when reading fails |
| R2Properties.StreamMultipartSession | src-tauri/src/r2.rs:325-363 | the first request creates the upload; a session is recorded exactly when the create returns an id, and it is that id; the later requests upload a prefix of the plan under it |
| R2Properties.StreamNeverAborts | src-tauri/src/r2.rs:288-390 | an upload task never sends an abort, whatever fails |
| R2Properties.StreamIsMultipart | src-tauri/src/r2.rs:298-326 | a trace whose size takes the multipart path comes from a file that opened and whose size is that total |
| R2Properties.MultipartCompleteCarriesAllParts | src-tauri/src/r2.rs:339-389 | a complete is the last request; it comes after every planned part and carries the session's id and parts numbered 1, 2, …; part i is the ETag the store replied to the request that uploaded planned chunk i |
| R2Properties.MultipartCompleteIsLast | src-tauri/src/r2.rs:339-389 | a complete in the multipart branch is the last request, right after the create and a chunk loop that succeeded, and carries that loop's parts under the session's id |
| R2Properties.MultipartPartsAreReplies | src-tauri/src/r2.rs:260-285 | after a successful loop, request i + 1 uploads planned chunk i, and completed part i is the store's reply to that request: its ETag, numbered i + 1 |
| R2Properties.StreamCompleteCarriesAllParts | src-tauri/src/r2.rs:288-390 | whenever a task sends a complete, that complete is its last request; it follows all ceil(size / 5 MiB) ≥ 1 parts, numbered in order, under the session's id, each part holding the ETag the store gave for that chunk's upload. A failed read or part therefore never leads to a complete |
| R2Properties.MultipartSuccessUploadsEveryByte | src-tauri/src/r2.rs:339-389 | a successful multipart upload reports one progress per part, with the size last, and sends parts + 2 requests ending in the complete |
| R2Properties.StreamSuccessUploadsEveryByte | src-tauri/src/r2.rs:288-390 | a successful upload of a file of at least 5 MiB has uploaded every byte; the last progress report is the size and the complete comes last |
| R2Properties.StreamProgressMonotone | src-tauri/src/r2.rs:366-385 | every progress report of a task is above 0 and at most the total, and the reports rise strictly |
| R2Properties.TaskEventsShape | src-tauri/src/r2.rs:75-103 | a task pushes its Uploading events with bytes ≤ total, then exactly one terminal event, which is Success exactly when it succeeded; every event carries the file id and "domain/key" |
| R2Properties.RegisteredEntries | src-tauri/src/r2.rs:52-106 | every file's id has an entry with no upload id whose handle is that of the last file with that id |
| R2Properties.RegisteredOthers | src-tauri/src/r2.rs:52-106 | ids of no file keep their entry or stay absent |
| R2Properties.CancelTwice | src-tauri/src/r2.rs:133-160 | cancelling the same id twice sends at most the one abort of the first cancel, and the id has no entry afterwards |
| Manager.Pruned | src-tauri/src/manager.rs:284-296 | an entry is kept exactly when its value is not "success", and kept entries keep their values |
| Manager.TaskUpload | src-tauri/src/manager.rs:214-259 | defines what one spawned task's body yields: the first failing step's error (metadata, byte stream, PUT), or success; the status lemmas are stated over it |
| Manager.FinalStatusAsWritten | src-tauri/src/manager.rs:207-272 | as written, a task leaves "success" when it succeeds and "uploading" when any step fails |
| Manager.FinalStatus | src-tauri/src/manager.rs:261-268 | corrected, a task leaves "success" exactly on success and "failed: " + the error otherwise |
| Manager.AfterTasksTerminal | src-tauri/src/manager.rs:201-272 | after the corrected tasks, every file's id has a finished status ("success" or "failed: …", never "uploading"), and ids outside the batch keep theirs |
| Manager.FailedUploadStaysUploading | src-tauri/src/manager.rs:214-268 | on a store that rejects every request, inline content "hello" fails with "AccessDenied"; as written the status stays "uploading", also after the whole batch, corrected it becomes "failed: AccessDenied" |
| Manager.StatusStore.GetUploadStatus | src-tauri/src/manager.rs:279-299 | returns the whole store as it was, and leaves it without its "success" entries |
| Manager.StatusStore.RunTaskAsWritten | src-tauri/src/manager.rs:207-272 | as written: the task's result, with the file's status set to FinalStatusAsWritten of it |
| Manager.StatusStore.RunTask | src-tauri/src/manager.rs:207-272 | corrected: the file's status is set to FinalStatus of the upload's result |
| Manager.StatusStore.R2UploadAsWritten | src-tauri/src/manager.rs:164-277 | as written: a failing proxy lookup or an unparsable proxy URI is returned with its message and no status written; otherwise Ok, and the store is AfterTasksAsWritten: every file's task has run as written |
| Manager.AfterTasks | src-tauri/src/manager.rs:207-272 | defines UPLOAD_STATUS after the batch's tasks ran in order, as corrected; `Manager.AfterTasksTerminal` and `LastTaskDecides` state its statuses |
| Manager.AfterTasksAsWritten | src-tauri/src/manager.rs:207-272 | defines UPLOAD_STATUS after the batch's tasks ran in order, as written; `Manager.AfterTasksAsWrittenStatuses` and `LastTaskDecidesAsWritten` state its statuses |
| Manager.AfterTasksAsWrittenStatuses | src-tauri/src/manager.rs:207-272 | as written, every file of the batch ends "success" or "uploading", never "failed: …"; the batch's last file leaves "uploading" exactly when it failed; ids outside the batch keep theirs |
| Manager.LastTaskDecidesAsWritten | src-tauri/src/manager.rs:207-272 | as written, the status of every id in the batch is FinalStatusAsWritten of the last task with that id: "uploading" exactly when that task failed |
| Manager.LastTaskDecides | src-tauri/src/manager.rs:207-272 | corrected, the status of every id in the batch is FinalStatus of the last task with that id: "failed: " + its error exactly when it failed |
| Manager.StatusStore.R2Upload | src-tauri/src/manager.rs:164-277 | corrected: the same proxy errors; otherwise Ok, and the store is AfterTasks, built from the corrected tasks |
| Manager.TwoReads | src-tauri/src/manager.rs:279-299 | a second read returns the first read's map minus its "success" entries |
| Manager.RelativePath | src-tauri/src/manager.rs:72-75 | base + result is the path when the path starts with base; otherwise the path is returned unchanged |
| Manager.Walk | src-tauri/src/manager.rs:52-86 | defines `get_file_details_internal` on a node: one detail for a file, the entries' details in order for a directory, the first failure's message otherwise; `Manager.WalkFlattens` relates it to the flattening FilesOf |
| Manager.WalkEntries | src-tauri/src/manager.rs:62-71 | defines the walk over a directory's entries in order; `Manager.WalkEntriesFlattens` states it |
| Manager.WalkFlattens | src-tauri/src/manager.rs:52-86 | the walk succeeds exactly when nothing below fails; it then returns one detail per regular file, in entry order, with its relative path |
| Manager.WalkEntriesFlattens | src-tauri/src/manager.rs:61-70 | the same for a directory's entries: their details are concatenated in order, and the first failure ends the walk |
| Manager.WalkHasNoDirectories | src-tauri/src/manager.rs:71-83 | no returned detail is a directory, and each carries its path relative to the base |
| Manager.GetFileDetailsInternal | src-tauri/src/manager.rs:52-86 | the recursive walk with its entry loop returns exactly Walk |
| Manager.GetFileDetails | src-tauri/src/manager.rs:88-99 | the walk runs with the parent of the picked path as base, or "" when there is none |
| Manager.IndexOf | src-tauri/src/manager.rs:115 | the first line-feed, or the length when there is none |
| Manager.StripCr | src-tauri/src/manager.rs:115 | a line loses at most one final '\r' |
| Manager.Lines | src-tauri/src/manager.rs:115 | no line holds a line-feed |
| Manager.Take | src-tauri/src/manager.rs:115 | a prefix of at most n lines, all of them when there are no more |
| Manager.LastSegment | src-tauri/src/manager.rs:126 | the text after the last '.', which holds no '.' and ends the path |
| Manager.PreviewFile | src-tauri/src/manager.rs:101-132 | a metadata error comes first, then the 10 MiB limit; a preview exists only for a file within the limit ending in .txt, .png, .jpg or .jpeg |
| Manager.JoinCount | src-tauri/src/manager.rs:115-116 | joining n lines puts n - 1 line-feeds between them |
| Manager.PreviewTextIsShort | src-tauri/src/manager.rs:111-117 | a text preview holds fewer than 100 line-feeds, that is at most 100 lines |
| Manager.JoinLines | src-tauri/src/manager.rs:115-116 | for a text without '\r' and without a final line-feed, splitting into lines and joining them gives the text back, with one line more than line-feeds |
| Manager.PreviewShortTextIsVerbatim | src-tauri/src/manager.rs:111-117 | such a text of at most 100 lines previews as exactly itself |
| Manager.JoinTakePrefix | src-tauri/src/manager.rs:115-116 | for a text without '\r', its first n lines joined with '\n' are a prefix of it; when it has more than n lines, that prefix stops right before a line-feed |
| Manager.PreviewTextIsPrefix | src-tauri/src/manager.rs:111-117 | a text preview of a file without '\r' is a prefix of its text; when the text has more than 100 lines, the preview holds 99 line-feeds and stops right before the next one, so it is exactly the first 100 lines |
| Manager.LastSegmentOfExtension | src-tauri/src/manager.rs:126 | the segment after the last '.' of stem + "." + ext is ext |
| Manager.PreviewImageBranch | src-tauri/src/manager.rs:119-129 | an image within the limit previews as "data:image/<last segment>;base64,<data>" |
| Manager.PreviewImageMediaType | src-tauri/src/manager.rs:119-129 | a .png, .jpg or .jpeg file previews as a data URL whose media type is its own extension |
| AppStore.AlertMessage.SetAlert | src/lib/store.svelte.ts:6-8 | the message becomes the given one |
| AppStore.Added | src/lib/store.svelte.ts:23-36 | defines the state after a proxy is appended under its id; `AppStore.RemoveUndoesAdd` proves that removing it restores the state |
| AppStore.KeepOthers | src/lib/store.svelte.ts:39-41 | a proxy is kept exactly when its id differs; the list never grows |
| AppStore.Removed | src/lib/store.svelte.ts:38-45 | the proxy type is kept; the selection is cleared exactly when it was the removed id and is otherwise unchanged |
| AppStore.KeepOthersAppend | src/lib/store.svelte.ts:39-41 | filtering distributes over concatenation, so order is kept |
| AppStore.KeepOthersAbsent | src/lib/store.svelte.ts:39-41 | nothing is dropped when no proxy has the id |
| AppStore.RemoveIsIdempotent | src/lib/store.svelte.ts:38-45 | removing twice is removing once |
| AppStore.RemoveUndoesAdd | src/lib/store.svelte.ts:23-45 | removing a freshly added, unselected proxy gives back the state before the add |
| AppStore.ProxySettings.constructor | src/lib/store.svelte.ts:11-21 | system proxy, no custom proxies, no selection |
| AppStore.ProxySettings.AddCustomProxy | src/lib/store.svelte.ts:23-36 | the proxy, under its new id, is appended at the end; nothing else changes |
| AppStore.ProxySettings.RemoveCustomProxy | src/lib/store.svelte.ts:38-45 | the state becomes Removed of the old state |
| AppStore.ProxySettings.SelectCustomProxy | src/lib/store.svelte.ts:47-49 | only the selection changes, with no check that the id exists |
| AppStore.ProxySettings.SetProxyType | src/lib/store.svelte.ts:51-53 | only the proxy type changes |
| Tools.HandleRelativePath | src/lib/tools.ts:19-24 | defines `handleRelativePath`: one leading separator dropped, every separator written '/'; `Tools.HandleRelativePathShape` and `HandleRelativePathIdempotent` state its properties |
| Tools.HandleRelativePathShape | src/lib/tools.ts:19-24 | with a separator other than '/', none is left, the length drops by one exactly when there was a leading separator, and '/' appears exactly where a separator or '/' was; every other character is kept in place |
| Tools.HandleRelativePathIdempotent | src/lib/tools.ts:19-24 | normalising a normalised name changes nothing |
| Tools.RemoteNameBelowBase | src/lib/tools.ts:49 | a file below the picked path's parent is named by its path below that parent, written with '/' |
| Tools.DigitChar | src/lib/tools.ts:11 | a digit character whose value is the digit |
| Tools.NatToString | src/lib/tools.ts:11 | at least one character, all of them decimal digits |
| Tools.PadStart2 | src/lib/tools.ts:11 | "" becomes "00", one character c becomes "0" + c, and strings of two or more characters are unchanged |
| Tools.NatToStringValue | src/lib/tools.ts:11 | reading back the digits of String(n) gives n |
| Tools.NatToStringLength | src/lib/tools.ts:11 | one, two and four digits in the ranges a timestamp uses |
| Tools.Pad2Digits | src/lib/tools.ts:11 | below 100, a padded number is its tens digit and its units digit |
| Tools.ConcatLength | src/lib/tools.ts:11 | each three-character field adds three characters to the timestamp |
| Tools.ConcatAt | src/lib/tools.ts:11 | field k sits at characters 3k to 3k + 3 |
| Tools.ClockFieldsLength | src/lib/tools.ts:11 | every field after the year is a separator and two digits |
| Tools.TimestampFieldAt | src/lib/tools.ts:11 | with a four-digit year, field k sits at characters 4 + 3k to 7 + 3k of the timestamp |
| Tools.Timestamp | src/lib/tools.ts:9-12 | defines `generateTimestamp`: the year, then month, day, hours, minutes and seconds padded to two digits with '-', '-', '_', '-', '-'; `Tools.TimestampRoundTrip` proves it reads back as the time |
| Tools.TimestampRoundTrip | src/lib/tools.ts:9-12 | with a four-digit year the timestamp has 19 characters (YYYY-MM-DD_HH-mm-ss) and reads back as the time it was made from, month counted from 1 |
| Tools.FieldValue | src/lib/tools.ts:11 | a field in place gives its separator and its value back |
| Tools.ParseLaidOut | src/lib/tools.ts:11 | a string laid out as the fields of a time reads back as that time |
| Tools.TimestampTextFileName | src/lib/tools.ts:14-16 | the timestamp followed by ".txt" |
| Tools.Sniff | src/lib/tools.ts:69-83 | each image kind holds exactly when its Base64 signature starts the content |
| Tools.Suffix | src/lib/tools.ts:69-83 | defines the file-name suffix of each image kind, ".png" for unrecognised content; `Tools.FilesState.AddImage` uses it |
| Tools.ImageContent | src/lib/tools.ts:69-80 | unrecognised content is stored unchanged; otherwise the kind's data-URL prefix is put in front (`Tools.ImageContentRoundTrip`) |
| Tools.ImageContentRoundTrip | src/lib/tools.ts:69-80 | dropping the prefix gives the pasted Base64 back, and recognised content becomes a "data:image/" URL |
| Tools.EntryOf | src/lib/tools.ts:43-51 | defines the entry pushed for one detail: a file entry with its id, its path as source, the normalised relative path as name and an empty prefix |
| Tools.EntriesOfPath | src/lib/tools.ts:38-55 | the entries of one path: one per detail, in order, each EntryOf it; none when the lookup failed |
| Tools.EntriesOf | src/lib/tools.ts:38-55 | defines the entries pushed for the paths, path after path; `Tools.FilesState.ParsePaths` is proved against it and `Tools.ParsedEntriesAreFiles` states their shape |
| Tools.ParsedEntriesAreFiles | src/lib/tools.ts:38-55 | every pushed entry is a file entry with a path source, an empty prefix and no platform separator in its name |
| Tools.AlertAfterFails | src/lib/tools.ts:26-55 | the alert is "获取文件详情失败" exactly when some path's details fail, and unchanged otherwise |
| Tools.FilesState.AddText | src/lib/tools.ts:57-65 | one text entry with the given id, content and name is appended |
| Tools.FilesState.AddImage | src/lib/tools.ts:67-91 | one image entry is appended, holding the sniffed data URL and named timestamp + suffix of the kind (".png" when unknown) |
| Tools.FilesState.PushDetails | src/lib/tools.ts:42-52 | the entries of the details are appended in order |
| Tools.FilesState.ParsePaths | src/lib/tools.ts:38-55 | the entries of every path are appended path after path, and the alert is AlertAfter |
| Tools.FilesState.ParsePath | src/lib/tools.ts:39-54 | appends one path's entries; a failed lookup appends nothing and sets the alert |
| Tools.FillMissing | src/lib/tools.ts:117-125 | all keys of both; target's values win and source fills in the rest |
| Tools.Overwrite | src/lib/tools.ts:112-115 | all keys of both; source's values win |
| Tools.FillMissingIdempotent | src/lib/tools.ts:117-125 | filling twice is filling once, and filling a target that has every key changes nothing |
| Tools.CopyFieldsSimple | src/lib/tools.ts:112-115 | returns the target object itself, whose fields are overwritten by the source's |
| Tools.CopyNotExistsFields | src/lib/tools.ts:117-125 | returns the target object itself, with the fields it lacked copied from the source; this holds even when the two are the same object |

## Left out

- Logging is not modelled: the `println!` calls in `manager.rs` and in `r2.rs`'s complete error path, and `console.error` in `tools.ts`. Nothing in the core depends on them.
- Networking, the AWS SDK, request signing, retries and content types (`mime_guess`) are not modelled. The store is the oracle `Env.store`, and only the request sequence and the reply handling are modelled.
- Semaphores (5 permits in `r2.rs`, 16 in `manager.rs`) and real concurrency are not modelled. Tasks run one at a time, each to its end. An abort takes effect only on a task that has not started (`R2.Engine.RunTask`), so an abort in the middle of a chunk loop is not modelled.
- The f64 fields of `Uploading` (`progress` and `speed`) and the wall-clock timestamp of `emit_progress` are not modelled. Only the byte counters are kept.
- Proxy discovery (`create_proxy_connector`, `get_proxy`, `sysproxy`) is not modelled. In `manager.rs`'s `r2_upload`, the lookup and the URI parse are parameters. The panic of `ProxyConnector::from_proxy(...).unwrap()` is not modelled.
- `r2_ping`, `ping`, `ping_bucket`, `checkClipboardContent`, `openDialogForFiles` and `openDialogForDir` are not modelled. They are thin wrappers over I/O, or dialogs.
- Nondeterministic values are parameters: `Uuid::new_v4`, `crypto.randomUUID()`, `Date.now()`, `new Date()` and the platform separator `sep()`. The separator is modelled as a single character. `Manager.DetailFor` draws the id from a parameter `uuid`, a function of the path; nothing is assumed about it, so two files may share an id.
- Machine integer widths are not modelled: integers are unbounded. The `i32` part number (`src-tauri/src/r2.rs:264`), the `metadata().len() as usize` cast (`src-tauri/src/r2.rs:301`) and the `as u64` casts of the progress counters (`src-tauri/src/r2.rs:381-382`) are taken as exact. On a 32-bit target `as usize` would truncate a file of 4 GiB or more, and the model does not capture that.
- Base64 encoding is not computed. `preview_file`'s encoded bytes come from the oracle `PreviewFs.base64`.
- `Tools.TimestampRoundTrip`: proved only for years 1000 to 9999. Other years are not exactly four characters long, so the layout is not fixed.
- `Tools.CopyNotExistsFields`, `Tools.CopyFieldsSimple`: objects are maps of own enumerable fields. JavaScript's prototype-chain `in`, key order and getters are not modelled.
- `Tools.FilesState.ParsePaths`: `paths.forEach(async ...)` does not await its callbacks. The model handles the paths one after another in order, so interleavings of the lookups are not modelled.
- `Manager.StatusStore.R2UploadAsWritten`, `Manager.StatusStore.R2Upload`: the spawned tasks run in order, before the command returns.
- `Manager.Walk`: a failure of `next_entry` is modelled as coming after the directory's entries have been read, and the entry order is the order of `FsNode.Directory.entries`.

## Where the documented behaviour and the code differ

- `r2_cancel_upload` returns `Ok(())` for an unknown id and does nothing (`R2.Engine.R2CancelUpload`).
- No code path emits `Cancelled`. `R2.TerminalStatus` is never `Cancelled`.
- `get_upload_status` prunes only "success" entries. "failed: …" entries stay (`Manager.Pruned`).
- A 0-byte file takes the single-PUT path, like any file below 5 MiB (`Chunking.UsesSinglePut`).
- `UPLOAD_TASKS` entries stay after a task completes. Only a cancel removes them.
- A file cancelled before its task ran never gets a terminal status: the aborted handle pushes no event (`R2.Engine.RunTask`).
- Progress is pushed after every uploaded part, with no throttling (`R2Properties.ChunkLoopProgress`).
- A failed read or a failed part upload does not abort the multipart upload; the task just ends with the error, and no task path sends an abort (`R2Properties.StreamNeverAborts`).

## Findings

| source | as written | input that shows it | evidently intended | confidence | as-written member | corrected member |
|---|---|---|---|---|---|---|
| src-tauri/src/manager.rs:207-272 | each `?` inside the `match file.source` returns from the whole spawned block, so a failed step never reaches the `Err(e)` arm that writes "failed: …"; the status stays "uploading" | inline content "hello" to key "a.txt" on a store that rejects every request with "AccessDenied" | the status becomes "failed: AccessDenied", so every finished task is "success" or "failed: …" | not executed | Manager.FinalStatusAsWritten, Manager.StatusStore.RunTaskAsWritten, Manager.StatusStore.R2UploadAsWritten, Manager.AfterTasksAsWrittenStatuses, Manager.LastTaskDecidesAsWritten, Manager.FailedUploadStaysUploading | Manager.FinalStatus, Manager.StatusStore.RunTask, Manager.StatusStore.R2Upload, Manager.AfterTasksTerminal, Manager.LastTaskDecides |
