# Afrasyab: verified model

A Dafny model of the stateful core of Afrasyab, the Telegram bot that downloads files and puts them on Google Drive,
with proofs of what that core is for. `dafny verify dfyconfig.toml` checks everything.

## What is modelled

**Worker pool** (`JobModel`, `WorkerPool`, `PoolInvariant`, `PoolFaults`, `PoolSafety`, `PoolFifo`,
`PoolProgress`, `PoolDrain`, `PoolExamples`, `JobRunner`).
The pool is a machine whose steps are single SQL statements, single external calls and single uses of the pressure
flag. A run is any list of such steps by any number of workers, mixed with inserts, progress and message-id writes of the
enqueuing code and with ticks of the clock. Downloads, token refreshes, uploads and directory creation may fail at any
time; SQL statements may fail too (a failed statement changes nothing). The main results hold over all runs, and where
failing statements break a property the exact condition is proved, job by job, in terms of which statements failed. A run
starts on any database that the pool can have left behind, wherever it was cut off (`PoolFifo.AnyStopIsAStart`). Proved are
exclusive ownership of claimed jobs; the soundness of the read-check-write in `set_status`; status histories that are
paths of the status machine; conservation of uploads; the concurrency bound; no residue of temp dirs; claims in creation
order with a bound on waiting; and a measure that makes the work of every run finite. `JobRunner.Worker` is the code of one
worker on the jobs table, written as the source writes it, with the others taking arbitrary steps between its statements:
it is proved to take only steps of the machine.

**Resumable upload** (`DriveSession`, `ResumableUpload`, `UploadRanges`, `UploadEffort`,
`UploadSuccess`, `Uploader`). The client loops against a drive that may roll back to any shorter prefix, take any part of a chunk, and store bytes and still answer 429 or 5xx.
The drive's contract is that it stores every byte at its own place and answers success only for a complete object.
What the client sends is specified by `PhaseAfter`, a function of the requests and answers so far; the methods are
proved to follow it, and everything else is proved about all logs that follow it.

**Pressure gate** (`ScratchDisk`, `GateThreads`). Once as an object that refines "the latest decisive event paused", and
once with every load, store and compare-exchange as a step of any number of threads.

**Text** (`Text`, `Decimal`, `Utf8`, `Filename`, `Redaction`, `YtDlpSize`). Content-Disposition parsing against an encoder with
free choice of escapes, the four log rewrites against the languages of their regular expressions, and the printed size limit.

**Downloads** (`Downloads`). The byte-limited copy loop on a disk that can fail, the retry, and a direct link from end to
end through the uploader.

**Readiness** (`Readiness`, `Handlers`). The tables of users, credentials, folders and jobs under any interleaving of the
handlers and the job runners, and the handlers' code, with statements that may fail and between which everybody else may step.

## Where the code surprises

- A 308 without a usable `Range` makes the client go on behind the chunk. For a drive that omits the header when it holds
  nothing, that offset is right if and only if something is stored (`UploadRanges.OffsetRightIffStored`, with an
  example). It never leads to a false success.
- A completed job becomes failed if and only if the reload for its own last notification fails and the read and
  the write of the `fail_job` that follows work (`PoolSafety.CompletionLostIff`; such runs exist, `PoolExamples.ReloadFaultLosesCompletion`).
  Otherwise the outcome of a finished job is final.
- When the read or the write of `fail_job` fails, that is ignored and a job in flight stays so; nothing takes it up again,
  not even after a restart (`PoolFaults.FaultsDecideOutcome`, `PoolFaults.OrphansStay`, `PoolExamples.FailedFailJobOrphans`).
  Such orphans are the only exception to exclusive ownership, to the concurrency bound and to the completeness of the drain.
- `percent_decode` also takes `%+5` for the byte 5, because Rust's number parser accepts a sign, and keeps a triplet that
  is cut off; section 2.1 of RFC 3986 allows neither (`Filename.DecodedLikeStrictly`).
- An empty file can never be uploaded: with a drive that does its part and a readable file, an upload succeeds if and only if
  the file is not empty (`UploadSuccess.SucceedsIffNonEmpty`).

## Model

| member | source | states |
|---|---|---|
| `JobModel.JobsTable.Insert` | crates/storage/src/jobs.rs:54-71 | a fresh id of a known user gets a queued row with the column defaults; a used id or an unknown user fails and changes nothing |
| `JobModel.JobsTable.ClaimNextQueued` | crates/storage/src/jobs.rs:73-90 | claims a queued row of minimal creation time and changes nothing else; nothing is claimed only when nothing is queued |
| `JobModel.StatementsCommute` | crates/storage/src/jobs.rs:92-172 | the statements of the enqueuing code (progress, message id) and of the workers (status, file id) commute, on one row or two |
| `PoolProgress.ProgressIsInvisible` | crates/storage/src/jobs.rs:113-132 | over whole runs: without its progress writes a run is still a run, with the same claims, statuses, errors, file ids, directories and uploads |
| `PoolInvariant.StepKeepsInv` | crates/app/src/job_runner.rs:44-219 | every step, failing statements included, keeps exclusive ownership and the agreement of each worker's position with its row |
| `PoolInvariant.Undisturbed` | crates/storage/src/jobs.rs:73-172 | a step that is neither a claim of a job nor a step of its holder leaves status, error, file id, user and creation time alone |
| `PoolFaults.StepKeepsTrack` | crates/app/src/job_runner.rs:44-219 | every step, failing statements included, keeps the agreement between what has gone wrong with a job, its row and the position of its holder |
| `PoolFaults.FaultsDecideOutcome` | crates/app/src/job_runner.rs:44-62 | how a job ends that was taken up and given up: completed if and only if its holder met no error, or lost its final reload and failed to fail the job; failed if and only if it met one and `fail_job` worked; in flight if and only if `fail_job` failed without a lost reload; a failed job has a file id exactly after a late fault |
| `PoolFaults.OrphansStay` | crates/storage/src/jobs.rs:73-90 | a job in flight that nobody holds, for instance one found at the process start, keeps its outcome columns in every run: nothing takes it up again |
| `PoolSafety.ExclusiveOwnership` | crates/app/src/worker.rs:50-60 | in every run: a job in flight never has two holders, and some worker is at work on it if and only if no statement of its `fail_job` has failed (a job in flight at the process start counts as one whose `fail_job` had) |
| `PoolSafety.CheckedStatusStillHolds` | crates/app/src/job_runner.rs:184-196 | at every write of `set_status`, in every run, the row still has the status that was read, and the write is an edge if and only if the job has not lost its final reload |
| `PoolSafety.StatusStep` | crates/app/src/job_runner.rs:193-196 | what any one step may do to any row: stay, move along an edge, or fail a completed job; a finished outcome whose status stays is not rewritten |
| `PoolSafety.HistoriesArePaths` | crates/domain/src/job.rs:14-33 | over every run a job's status history is a path of transition edges if and only if the job has not been failed after losing its own final reload; on runs without failing statements it always is |
| `PoolSafety.HistoryBegins` | crates/storage/src/jobs.rs:54-71 | the history begins with the status at the process start or, for a job inserted later, with queued |
| `PoolSafety.OutcomesAreFinal` | crates/app/src/job_runner.rs:193-196 | in every run: status, error and file id of a finished job never change again, unless it was completed and has been failed after its own lost reload |
| `PoolSafety.RankNeverDrops` | crates/app/src/job_runner.rs:184-219 | in every run, whatever fails, queued < downloading < uploading < completed < failed never goes down |
| `PoolSafety.CompletionLostIff` | crates/app/src/job_runner.rs:44-62 | once given up, a job that was ever completed is failed if and only if its own final reload failed and no statement of the following `fail_job` did; otherwise it is completed |
| `PoolExamples.ReloadFaultLosesCompletion` | crates/app/src/job_runner.rs:210-217 | from every process start with a claimable job that has a message there is a run in which nothing but that reload fails and which ends with the completed job failed, its file id kept |
| `PoolExamples.FailedFailJobOrphans` | crates/app/src/job_runner.rs:51-59 | from every process start with a claimable job there is a run in which one statement, the write of `fail_job`, fails and which ends with the job in flight and every worker idle |
| `PoolSafety.UploadsAreConserved` | crates/app/src/job_runner.rs:157-174 | in every run: at most one uploader call per job; completed means the row has the id of that call, an error is present exactly when failed, and a failed job has a file id if and only if a statement failed after the id had been recorded |
| `PoolSafety.ConcurrencyBound` | crates/app/src/worker.rs:32-60 | in every run, apart from orphans, never more in-flight rows than workers; without failing statements the only orphans are those of the process start |
| `PoolSafety.NoResidue` | crates/app/src/job_runner.rs:303-318 | if removals work, temp dirs that were not there at the start belong to held jobs; when all workers are idle none of them is left and exactly the orphans are in flight |
| `PoolFifo.AnyStopIsAStart` | crates/app/src/worker.rs:32-69 | what a run leaves behind, wherever it is cut off, is a database from which all results start again |
| `PoolFifo.ClaimsFollowCreation` | crates/storage/src/jobs.rs:73-90 | over a whole run, across workers and inserts, claimed jobs have non-decreasing creation times |
| `PoolFifo.WaitIsBounded` | crates/storage/src/jobs.rs:73-90 | once its second is over, a queued job waits for at most as many claims as there are queued jobs of its own or earlier seconds |
| `PoolDrain.MeasureStep` | crates/app/src/worker.rs:40-69 | every working step lowers the measure, an insert raises it by 22, no other step changes it |
| `PoolDrain.WorkIsBounded` | crates/app/src/worker.rs:40-69 | the working steps of any run are bounded by its start and its inserts |
| `PoolDrain.NothingLeft` | crates/app/src/worker.rs:40-69 | the measure is zero exactly when nothing is queued and nobody is busy |
| `PoolDrain.NothingLeftIsFinished` | crates/app/src/worker.rs:40-69 | then a job is completed or failed if and only if it is not an orphan; without failing statements all are that were not in flight at the process start |
| `PoolDrain.QuiescentIsFinished` | crates/app/src/worker.rs:40-69 | a run, whatever failed in it, in which no working step is possible any more, with a worker let through by the gate, has finished exactly the jobs that are not orphans |
| `PoolDrain.SomeoneCanWork` | crates/app/src/worker.rs:40-69 | no deadlock, orphans or not: while the measure is not zero, at most two steps without faults and inserts lower it |
| `PoolDrain.UseUp` | crates/app/src/worker.rs:40-69 | from every state that keeps the invariant the measure can be used up without inserts and without faults |
| `PoolDrain.Drain` | crates/app/src/job_runner.rs:64-175 | every run, whatever failed in it, can be continued without inserts until exactly its orphans are not completed or failed |
| `JobRunner.ForeignStep` | crates/app/src/worker.rs:35-38 | steps of the others leave a worker's position and its job's status, error and file id alone |
| `JobRunner.ReachableIsKept` | crates/app/src/worker.rs:35-38 | "reachable by the machine" is one of the properties the runner's code keeps |
| `JobRunner.RunWorker` | crates/app/src/worker.rs:32-69 | from a process start on, the code of a worker amid everybody else ends in a state that a run of the machine reaches, so all results about runs hold of it; it makes one full pass for each reading |
| `JobRunner.Worker.SetStatus` | crates/app/src/job_runner.rs:177-219 | under interference, success means the row shows the new status and error, with its file id as before; it fails only with a failing statement |
| `JobRunner.Worker.ReadForUpdate` | crates/app/src/job_runner.rs:184-195 | the row is read and checked; one that is left alone shows the new status already |
| `JobRunner.Worker.WriteAndReload` | crates/app/src/job_runner.rs:196-218 | the write and, if there is a message, the reload, with the others between them |
| `JobRunner.Worker.Write` | crates/app/src/job_runner.rs:196 | the row shows the new status and error, whatever happened since it was read |
| `JobRunner.Worker.ReloadJob` | crates/app/src/job_runner.rs:210-218 | the reload finds the row, still with that status and error, unless the statement fails |
| `JobRunner.Worker.Call` | crates/app/src/job_runner.rs:104-126 | an external call goes on or leads to failing with exactly the error it answered |
| `JobRunner.Worker.Open` | crates/app/src/job_runner.rs:64-109 | directory, row, gate and preparation in order, each with its way to fail; two external calls on success |
| `JobRunner.Worker.LoadJob` | crates/app/src/job_runner.rs:67-68 | the row is there; only a failing statement leads to failing, with its error |
| `JobRunner.Worker.CheckPressure` | crates/app/src/job_runner.rs:75-79 | a job fails with the message about full storage if and only if the flag is set |
| `JobRunner.Worker.Download` | crates/app/src/job_runner.rs:64-158 | success puts the job in front of its upload after three external calls; an error is the first one met and puts it in front of `fail_job` |
| `JobRunner.Worker.FetchFile` | crates/app/src/job_runner.rs:114-158 | the download and the status after it; an error is that of the call or the statement |
| `JobRunner.Worker.CallUploader` | crates/app/src/job_runner.rs:166-169 | one call of the uploader, and exactly the id or the error it answered is returned and, the id, recorded next |
| `JobRunner.Worker.SetDriveFileId` | crates/app/src/job_runner.rs:171 | the row shows the id, and the completed status is asked for next |
| `JobRunner.Worker.Send` | crates/app/src/job_runner.rs:166-171 | on success the row shows the id that the uploader answered |
| `JobRunner.Worker.RunJobInner` | crates/app/src/job_runner.rs:64-175 | success means the row is completed without error and has the id the uploader answered, the fourth external call; an error is the first one met |
| `JobRunner.Worker.MarkPressure` | crates/app/src/job_runner.rs:51-54 | an error that tells of a full disk leaves the pressure flag set |
| `JobRunner.Worker.FailJob` | crates/app/src/job_runner.rs:221-229 | the row is failed with the error unless a statement fails |
| `JobRunner.Worker.HandleError` | crates/app/src/job_runner.rs:51-59 | the flag, then `fail_job`: the row shows the error unless a statement of `fail_job` fails |
| `JobRunner.Worker.DropGuard` | crates/app/src/job_runner.rs:303-318 | the worker is idle, the outcome of its job is what it was, and the dir is gone if removal works |
| `JobRunner.Worker.RunJob` | crates/app/src/job_runner.rs:44-62 | ends idle and returns the first error it met, if any; without one the row is completed with the id the uploader answered; with one it is failed with that error, unless a statement of `fail_job` failed; the dir is gone if removal works |
| `JobRunner.Worker.ClaimNextQueued` | crates/app/src/worker.rs:49-67 | a claim takes a claimable job of the table it meets; it takes none only if none is queued there or the statement fails |
| `JobRunner.Worker.EvaluateGate` | crates/app/src/worker.rs:40-48 | the worker waits exactly if its reading leaves the flag set that it met |
| `JobRunner.Worker.Pass` | crates/app/src/worker.rs:40-69 | one pass: it waits, or asks for a job in vain, or runs the job it gets to its end |
| `JobRunner.Worker.Work` | crates/app/src/worker.rs:40-69 | one such pass for every reading, in order, taking only steps of the machine |
| `ScratchDisk.LatestPausesSnoc` | crates/core/src/scratch_disk.rs:79-108 | one more event changes "the latest decisive event paused" as it changes the flag |
| `ScratchDisk.DiskPressureGate.constructor` | crates/core/src/scratch_disk.rs:64-68 | starts unpressured with an empty history |
| `ScratchDisk.DiskPressureGate.IsPressured` | crates/core/src/scratch_disk.rs:70-72 | the flag is what the history says |
| `ScratchDisk.DiskPressureGate.ForcePressure` | crates/core/src/scratch_disk.rs:74-76 | a force is decisive |
| `ScratchDisk.DiskPressureGate.Evaluate` | crates/core/src/scratch_disk.rs:79-108 | state and result equal "the latest decisive event was a force or a reading below min"; below min the flag is set, from resume on it is clear, and in between it stays |
| `ScratchDisk.ParseScratchThresholdsMb` | crates/core/src/scratch_disk.rs:10-25 | for every pair of settings min <= resume, strictly unless min is the largest u64; coherent settings are kept, others get 256 MiB, and what does not fit becomes the largest u64 |
| `GateThreads.StepKeepsInv` | crates/core/src/scratch_disk.rs:74-108 | every atomic step keeps the account of swaps, the separation of pauses and the justification of every swap |
| `GateThreads.SwapsAccountForFlag` | crates/core/src/scratch_disk.rs:74-108 | under any interleaving: flag = pauses + forces that found 0 - resumes, in {0, 1}; two pauses have a resume between them; each swap is backed by its own thread's reading |
| `GateThreads.AloneIsSequential` | crates/core/src/scratch_disk.rs:79-108 | without interference the atomic steps do what the sequential gate does |
| `DriveSession.LocalFile.Read` | crates/drive/src/resumable.rs:116-120 | reads work or fail and are short as the file's script says: nothing at the end or into an empty buffer, otherwise at least one byte of the file at the offset |
| `DriveSession.Session.Send` | crates/drive/src/resumable.rs:145-152 | one request is logged with the drive's answer, and the drive keeps its contract |
| `ResumableUpload.ValidateUploadChunkBytes` | crates/drive/src/upload_limits.rs:5-15 | accepts exactly the positive multiples of 256 KiB |
| `ResumableUpload.PutOnce` | crates/drive/src/resumable.rs:143-187 | one request more, and the log is where the protocol puts it after the verdict, the wait before a repetition included |
| `ResumableUpload.PutChunkWithRetries` | crates/drive/src/resumable.rs:134-188 | at most four requests, and the verdict is the one the protocol gives for the log |
| `ResumableUpload.ReadChunk` | crates/drive/src/resumable.rs:116-127 | the next chunk as a request, or a failing read, or a stall exactly at the end of the file or with an empty buffer |
| `ResumableUpload.UploadNext` | crates/drive/src/resumable.rs:115-129 | one pass of the loop: it goes on where the protocol says, or ends as it allows |
| `ResumableUpload.UploadChunks` | crates/drive/src/resumable.rs:102-132 | the log and the outcome are exactly what the protocol allows; it gives up on the file if and only if a read fails; every body fills the buffer or is what a short read got |
| `Uploader.UploadResumable` | crates/drive/src/resumable.rs:24-63 | oversized files are refused without a request; an id is returned only if the drive holds exactly the file; and if the drive does its part and no read fails, if and only if the file is not empty |
| `ResumableUpload.PutsAreChunks` | crates/drive/src/resumable.rs:116-123 | every request carries the file's bytes at the place it names |
| `ResumableUpload.ContentRangesFit` | crates/drive/src/resumable.rs:116-148 | first <= last < total, the span is the body length and at most the chunk size, also after rollbacks |
| `ResumableUpload.StoredIsPrefix` | crates/drive/src/resumable.rs:115-129 | after a run the drive holds a prefix of the file |
| `ResumableUpload.StoredIsAlwaysPrefix` | crates/drive/src/resumable.rs:115-129 | at every moment of every run the drive holds a prefix of the file |
| `ResumableUpload.SuccessMeansStored` | crates/drive/src/resumable.rs:155-165 | a returned id implies that the drive holds the whole file, and is the id it sent |
| `ResumableUpload.EmptyFileFails` | crates/drive/src/resumable.rs:115-131 | an empty file ends in an error without a request; `UploadSuccess.SucceedsIffNonEmpty` has the converse |
| `UploadSuccess.SucceedsIffNonEmpty` | crates/drive/src/resumable.rs:102-188 | if the drive answers, confirms complete objects, tells the truth about others and never asks for four repetitions in a row, and the file can be read, then the upload is a success if and only if the file is not empty |
| `UploadSuccess.SomeUploadSucceeds` | crates/drive/src/resumable.rs:102-188 | for every file that is not empty there is such an upload, and it succeeds |
| `UploadRanges.RangeRoundTrip` | crates/drive/src/resumable.rs:190-194 | the range parser undoes decimal printing for every u64 |
| `UploadRanges.ContentRangeRoundTrip` | crates/drive/src/resumable.rs:142 | the printed Content-Range reads back to its three numbers |
| `UploadRanges.OffsetIsStoredLength` | crates/drive/src/resumable.rs:166-175 | with truthful ranges the client's offset equals the stored length after every 308 |
| `UploadRanges.OffsetRightIffStored` | crates/drive/src/resumable.rs:167-173 | for a drive that omits the range when it holds nothing, the offset is right if and only if something is stored |
| `UploadRanges.OffsetSkipsExample` | crates/drive/src/resumable.rs:173 | with the smallest valid chunk size: a log in which the client skips a byte the drive does not have |
| `UploadEffort.ChunkEffort` | crates/drive/src/resumable.rs:143-184 | a chunk is sent at most four times with identical bytes and range and at most ten seconds of waiting |
| `UploadEffort.AnswersInNumbers` | crates/drive/src/resumable.rs:153-187 | what follows every answer, in status numbers: an id after 2xx, the next offset after 308, the same request after the first three 429 or 5xx, the end otherwise |
| `UploadEffort.WaitsOfRequests` | crates/drive/src/resumable.rs:179-182 | the waits for one chunk add up to exactly 0, 2, 6 and 10 seconds after its first, second, third and fourth request |
| `UploadEffort.PutsPerRound` | crates/drive/src/resumable.rs:115-129 | the requests of a whole upload are at most four per chunk started |
| `UploadEffort.AdvancingEnds` | crates/drive/src/resumable.rs:115-129 | if every 308 advances, the upload ends: at most four requests per byte |
| `UploadEffort.SmoothEffort` | crates/drive/src/resumable.rs:115-129 | if reads fill the buffer and chunks are taken whole, at most four requests for each chunk that covers the file |
| `UploadEffort.ChunksAreAligned` | crates/drive/src/upload_limits.rs:5-15 | every chunk starts, and every one but the last ends, on a 256 KiB boundary |
| `Utf8.DecodeEncode` | crates/downloader/src/filename.rs:106 | decoding UTF-8 undoes encoding for every string |
| `Utf8.EncodeDecode` | crates/downloader/src/filename.rs:106 | what is decoded is what the bytes encode, so nothing but well-formed UTF-8 is accepted |
| `Text.TrimRemoves` | crates/downloader/src/filename.rs:65-84 | trimming removes all whitespace at both ends and nothing else |
| `Text.TrimQuotesRemoves` | crates/downloader/src/filename.rs:72-83 | and so with quotes |
| `Text.JoinSplit` | crates/downloader/src/filename.rs:64 | splitting a header loses nothing and leaves no separator in a part |
| `Filename.PercentDecode` | crates/downloader/src/filename.rs:91-107 | the loop decodes triplets and then UTF-8 |
| `Filename.DecodedLikeStrictly` | crates/downloader/src/filename.rs:91-107 | what the decoder refuses, one that follows section 2.1 of RFC 3986 refuses; what it decodes, that one decodes alike if and only if no triplet starts with a plus sign or is cut off |
| `Filename.SignedTripletIsDecoded` | crates/downloader/src/filename.rs:97-98 | "%+5" is decoded, and a strict decoder refuses it |
| `Filename.DecodedLength` | crates/downloader/src/filename.rs:95-105 | decoding shortens its input by two bytes per triplet |
| `Filename.FilenameFromContentDisposition` | crates/downloader/src/filename.rs:63-89 | the first parameter that yields a name wins |
| `Filename.HeaderName` | crates/downloader/src/filename.rs:64-88 | the first parameter that yields a name gives the name of the whole header, whatever comes before it without a name and after it |
| `Filename.HeaderWithoutName` | crates/downloader/src/filename.rs:88 | a header none of whose parameters yields a name has none |
| `Filename.PlainPart` | crates/downloader/src/filename.rs:81-86 | a plain parameter, quoted or bare, yields exactly its name |
| `Filename.ExtendedPart` | crates/downloader/src/filename.rs:66-80 | an extended parameter, with or without charset and quotes, yields its decoded and trimmed value, or nothing |
| `Filename.UndecodableIsPassedOver` | crates/downloader/src/filename.rs:73-80 | an extended parameter that does not decode leaves the name to the others |
| `Filename.OtherPart` | crates/downloader/src/filename.rs:64-87 | parameters of other kinds yield nothing |
| `Filename.DecodeEscaped` | crates/downloader/src/filename.rs:91-107 | decoding undoes every escaping, with either case of digits |
| `Filename.PlainHeaderRoundTrip` | crates/downloader/src/filename.rs:63-89 | every name that a plain parameter can carry comes out of the header exactly, quoted or bare, among other parameters |
| `Filename.HeaderRoundTrip` | crates/downloader/src/filename.rs:63-107 | for every trimmed name and every covering escaping, the extended parameter parses back to exactly the name, with any charset or none, quoted or not, among other parameters |
| `Filename.AttachmentIsNoName` | crates/downloader/src/filename.rs:64-87 | the disposition type "attachment" meets the round trip's premise |
| `Filename.SanitizedIsSafe` | crates/downloader/src/filename.rs:18-28 | sanitized names are safe components: safe characters stay, each other one becomes an underscore; "." and ".." come from themselves only |
| `Filename.ResolveDirectName` | crates/downloader/src/filename.rs:31-61 | the header's name, else the hint, else "download", with an extension when one is known, as one component of safe characters; it is "." or ".." if and only if that name was |
| `Redaction.MatchLengthSound` | crates/core/src/sanitize.rs:4-12 | what the matcher finds is in the language of the expression |
| `Redaction.MatchLengthComplete` | crates/core/src/sanitize.rs:4-12 | it finds the longest match at a position, and none only if there is none |
| `Redaction.KeptPositionStaysFree` | crates/core/src/sanitize.rs:14-21 | a rewrite creates no match of any expression at a position it keeps |
| `Redaction.PassStaysFree` | crates/core/src/sanitize.rs:16-19 | a pass removes its own matches and re-creates none of an earlier one |
| `Redaction.RedactedIsFree` | crates/core/src/sanitize.rs:14-21 | no part of the output is in any of the four languages, for every input |
| `Redaction.RedactionIsStable` | crates/core/src/sanitize.rs:14-21 | redaction is idempotent, and keeps a text if and only if it contains none of the four kinds |
| `Redaction.CutsAreUnique` | crates/core/src/sanitize.rs:14-21 | there is one way to cut a text, from left to right, into longest matches and characters at which no match starts |
| `Redaction.PassRewrites` | crates/core/src/sanitize.rs:16-19 | a pass keeps exactly those characters, in order, with the token in the place of each match |
| `Redaction.RedactionRewrites` | crates/core/src/sanitize.rs:14-21 | the output is exactly what "[url]", "[url]", "[token]" and "[file_id]", one pass after the other, make of the input |
| `Downloads.CopyLimited` | crates/downloader/src/http.rs:59-75 | the file never exceeds the limit; success means it holds the whole stream |
| `Downloads.DownloadOnce` | crates/downloader/src/http.rs:31-76 | succeeds exactly for acceptable responses unless the disk fails (directory, creation, write or flush), and every error has its cause; other files are untouched |
| `Downloads.DownloadDirect` | crates/downloader/src/http.rs:81-91 | one retry; on success the file holds the last attempt's chunks only |
| `Downloads.DownloadTelegramFile` | crates/downloader/src/telegram.rs:33-70 | success means announced and real size are within the limit and the file holds the whole stream, and it is guaranteed for such a file unless the disk fails |
| `Downloads.DirectToDrive` | crates/drive/src/resumable.rs:36-43 | under a shared limit the uploader's size check never fails; an id means the drive holds what the last attempt received; and if nothing fails on the way it ends so for every download that is not empty |
| `YtDlpSize.SizeRoundTrip` | crates/downloader/src/ytdlp.rs:28-38 | the printed limit reads back to the same byte count for every u64 |
| `YtDlpSize.UnitIsLargest` | crates/downloader/src/ytdlp.rs:28-38 | whole gibibytes are printed with G, other whole mebibytes with M, everything else in bytes |
| `Readiness.TablesOnlyGrow` | crates/storage/src/google_credentials.rs:14-31 | no step takes back a user, credentials, a folder or a row |
| `Readiness.StepKeepsInv` | crates/telegram/src/enqueue.rs:18-27 | every step keeps: rows belong to ready users, and an inserting task's user is ready |
| `Readiness.JobsAreReady` | crates/app/src/job_runner.rs:81-94 | from every database whose jobs belong to ready users: in every reachable state every job's user has credentials and a folder, and no runner finds one missing |
| `Readiness.ReadyIsForever` | crates/telegram/src/readiness.rs:7-27 | a ready user stays ready |
| `Handlers.Task.JobReadiness` | crates/telegram/src/readiness.rs:7-27 | passes only for users with credentials and folder; denies only for what was missing or because a lookup failed |
| `Handlers.Task.InsertJob` | crates/telegram/src/handler.rs:400-417 | exactly which statements are written for a job that ends well or in which error; the row exists unless the insert itself failed |
| `Handlers.Task.Announce` | crates/telegram/src/handler.rs:411-416 | progress, notification, message id, stopping at the first failure; after success the row shows the message |
| `Handlers.Task.ReportProgress` | crates/telegram/src/handler.rs:411 | the row shows the progress |
| `Handlers.Task.SaveMessageId` | crates/telegram/src/handler.rs:416 | the row shows the message id |
| `Handlers.Task.Insert` | crates/storage/src/jobs.rs:54-71 | the task inserts exactly this job, or nothing; with working statements it fails only for an id that is taken |
| `Handlers.Task.InsertAndEnqueue` | crates/telegram/src/enqueue.rs:13-33 | a row of a ready user exists exactly if the insert worked, whatever happened between check and insert; with working statements and notifier it fails only for a user that was not ready or a taken id |
| `Handlers.Task.EnqueuePlaylist` | crates/telegram/src/handler.rs:390-418 | checks once; success writes insert, progress and message of every item in order; a failure leaves exactly the writes up to it, all rows belonging to a ready user; with working statements it stops only for a user not ready, a failing notification or a taken id |
| `Handlers.Task.EnqueueItems` | crates/telegram/src/handler.rs:399-418 | the loop: exactly what it has written when it ends at which item with which error |
| `Handlers.Task.EnqueueItem` | crates/telegram/src/handler.rs:400-417 | one item adds its writes to those of the items before it |
| `Handlers.EnqueueAmongOthers` | crates/telegram/src/handler.rs:390-418 | from such a database on, the code amid everybody else ends in a state that a run of the tables reaches, every job belongs to a ready user, and the items' rows are there |
| `Handlers.Task.GoogleCallback` | crates/oauth/src/routes.rs:131-181 | credentials unless a statement fails; then a folder when the drive creates one and it can be stored |
| `Handlers.Task.ProvisionUserFolder` | crates/oauth/src/routes.rs:166-181 | success makes the user ready with the created folder |
| `Handlers.Task.BeginFolder` | crates/telegram/src/user.rs:241-252 | stops for lack of credentials only when there were none |
| `Handlers.Task.ReadFolder` | crates/telegram/src/user.rs:261-282 | a rename gets the stored folder and stops for lack of one only when there was none |
| `Handlers.Task.StoreFolder` | crates/telegram/src/user.rs:261-282 | success stores the created folder, or again the one that a rename has read |
| `Handlers.Task.SetFolder` | crates/telegram/src/user.rs:241-288 | success leaves the user ready with the new folder or, for a rename, the one stored when it was read; with working statements and drive it fails only without credentials or, for a rename, a folder |

## Left out

- JobRunner.Worker.Work: the loop runs for a given list of readings, because the source's loop has no end.
- ResumableUpload.UploadChunks: the drive's behaviour is a script of any length; when it ends the connection breaks, so that the loop ends.
- Filename.ResolveDirectName: the mime table is a parameter, and what a path makes of the names "." and ".." is left out.
- Downloads.DownloadDirect: the sum of chunk lengths is unbounded, where the source's u64 cannot overflow in memory either.
- Readiness.JobsAreReady: it starts from a database whose jobs belong to ready users. migrations/20260518000001_drive_folder_auto_create.sql:1 deletes all folders of an older database, whose jobs then do not.
- Onboarding flags and pending records, which `try_set_folder_from_message` also writes (crates/telegram/src/user.rs:284-285).
- A statement that takes effect and still reports an error is not modelled; a failed statement changes nothing.
- A crash in the middle of a run: a run ends anywhere, and the next one starts on what it left; that a statement or an upload was cut off half-way is not modelled.
- The worker's own read of the row right after the claim (crates/app/src/worker.rs:52-56), which only feeds a log line.
- The text of error messages, `user_facing_error` and the detection of a full disk in a message: an error carries its text and a flag.
- The pool uses the gate's `evaluate` as one step; its atomic steps are modelled on their own.
- Log lines of the gate are written after their swap and may come in another order; the model orders the swaps.
- Expiry of pending prompts and OAuth states, and the single use of a taken state.
- Telegram messages, keyboards and commands, OAuth over HTTP, encryption, URL parsing, yt-dlp as a process, configuration.
- `filename_from_url_path`, which only adds the choice of a URL segment to the decoder.
- Removal of credentials (crates/storage/src/google_credentials.rs:44-50): nothing calls it.
- Memory ordering: the gate's atomics are taken as sequentially consistent.
