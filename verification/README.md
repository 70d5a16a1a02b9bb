# A verified model of the remote file system

The repository gives DuckDB a file system over HTTP, S3 and Hugging Face. This project models its
stateful parts in Dafny and proves what they promise. Code that updates objects in place became
classes and loops proved against specification functions; the concurrent protocols became step
systems (a state, the events, what each event does) with an invariant over all runs.

| files | what they model |
|---|---|
| `PathMatch.dfy`, `GlobWalk.dfy`, `GlobOrder.dfy` | segment-wise patterns, the recursive S3 glob over a server that pages its listings as it likes, and the order of that walk |
| `MultipartUpload.dfy`, `MultipartInvariant.dfy`, `MultipartSafety.dfy`, `MultipartTheorems.dfy`, `MultipartSleep.dfy`, `MultipartWrites.dfy`, `MultipartProgress.dfy`, `MultipartSync.dfy` | the multipart upload: a writer, detached upload threads and the endpoint; who wakes a sleeping writer; what becomes of the bytes of every write; that calls return; and what a sync before the end leaves |
| `FullDownload.dfy`, `CachedFileSharing.dfy` | the download buffer that grows with the body, and the lock that many openers share |
| `RangeServer.dfy`, `RangeBuffer.dfy`, `RangeReader.dfy` | what servers reply to range requests and what a request leaves in memory; the read buffer as a value; buffered, bypassing, direct and cached reads with the fallback to a full download |
| `ReaderRuns.dfy`, `ReaderFindings.dfy`, `SequentialScan.dfy` | any series of reads through one handle, the cases in which reads go wrong, and the refills of a scan |
| `Dispatcher.dfy`, `DispatcherSafety.dfy`, `DispatcherTheorems.dfy`, `DispatcherProgress.dfy` | the curl_multi dispatcher with its stack-allocated waiters, its shutdown, and how soon it starts a transfer |
| `S3Auth.dfy`, `CredentialRefresh.dfy` | reload and refresh of credentials, the two retry loops, and the single-flight refresh across handles |
| `ConnectionCache.dfy`, `ConnectionSharing.dfy` | the 16 by 16 connection pools, for one call and for any interleaving of calls |
| `DeleteBatchKey.dfy`, `DeleteBatch.dfy`, `DeleteBody.dfy`, `PartSize.dfy` | the key that identifies a batch of deletions, deletion in batches and chunks, what an endpoint reads in a request's body, and the part size arithmetic |
| `Prelude.dfy` | bytes, options and the minimum |

## How to read the models

* **Glob.** An object key is the list of its segments; a last segment that is empty marks a
  directory marker, which the listing parser skips. A server is a bucket and, for every prefix, an
  arbitrary order of its listing; each page ends where the server likes, possibly with a token
  although nothing is left. Matching of one segment is a parameter. The result holds for every
  pattern, `**` included.
* **Multipart upload.** Every request has every outcome, and every interleaving is a run. A thrown
  exception ends the writer. A file is at most 65535 parts long, the range of the 16-bit counters.
  What was written is `Input`: the bytes of all calls to write, read off the events of a run.
* **Reader.** An object goes through versions; a reply to a range request is a series of attempts,
  each from some version. The last one is a beginning of the range, or the whole object from a server
  that ignores ranges; those before it may have broken off anywhere. A body follows a final status,
  below 300. The success flag of a response is set by the request layer and may be up or down
  whatever was delivered. The last attempt and the flags decide what a request comes to, after any
  number of redirects and repetitions (`Decides`, `Verdict`).
  The contracts come in two layers. `ReadDone` says what a read returns and what it leaves in the
  read buffer, whatever the replies contain and also if it throws; no read needs a buffer that is in
  order. `Returned` says what that means for a version of the object, under one condition on the
  replies of that read (`Pinned`): either ETag checks are enabled, the handle recorded the version's
  ETag and ETags differ between versions (an ETag as in section 8.8.3 of RFC 9110), or the object
  does not change.
  `stale` is what lay in the target of the request before its last attempt, and `Beneath` ties it to
  the memory before the read when the answer took one attempt: to the caller's memory for a direct
  read or one that bypasses the buffer, to the old bytes of the buffer for a refill. Only the memory
  of a newly enlarged buffer is arbitrary.
* **Runs of reads.** `ReadAll` makes any reads in any order, each with replies of its own, goes on
  after exceptions and stops at the first fallback. Its results are a run of turns, about which
  `LastRefillDecides`, `RunIsRight` and `OrderAfterRefill` speak.
* **Dispatcher.** A transfer is one call to Submit, an easy handle may be submitted again as soon as
  the earlier call no longer uses it, and libcurl reports a result for attached handles only.
* **Request loops.** Where requests go is stated by relations of their own: `MovedTo` for a redirect,
  `Adopts` for a reload of the stored settings, `GoesTo` for a region and its endpoint.
* **Credentials.** A refresh of the secrets is one step on a store and leaves any material behind,
  the rejected one included; it may also give up, with or without an exception.
* **Bulk deletion.** An endpoint reads a body as XML 1.0: references, line ends and forbidden
  characters as its sections 2.2, 2.4, 2.11 and 4.1 say; which references it knows is a parameter.
  The headers of an identity are sorted by name, and a lookup for a type of secret
  finds secrets of that type (`WellFormed`).

## Findings

Where a property does not hold of the code, the model keeps the code and states when it does hold.

* The check for a short body is made only if the success flag is up, while a response with status
  206 or 202 is accepted whatever the flag says (src/httpfs.cpp:456 and 742). From a buffer in order,
  a read that ends normally has the right bytes if the answer was checked or complete, and on any
  other final answer if and only if that answer reached the last byte needed, or what lay behind it
  in memory happened to be right; a refilled buffer is in order under the same condition for the
  whole refill (`FirstHalf`, `Read`). `ShortReadGoesUnnoticed` is every read that misses it.
* A refill that throws after some bytes have arrived leaves them over the old bytes of the buffer,
  while the bounds of the buffer stay (src/httpfs.cpp:842-851). The buffer is then in order if and
  only if what arrived happens to be what the file has at the old place (`BrokenRefill`); otherwise a
  later read within the bounds needs no request, ends normally and returns wrong bytes
  (`FailedRefillSpoils`, and the four-byte object of `FailedRefillExample`). If the buffer was
  enlarged for the refill, even its memory is new. The next refill that succeeds on a whole answer
  repairs it (`RunIsRight`).
* A multipart upload of no bytes is opened but never completed (`InputIsCommitted`,
  `FinishedRunCommits`, and the run of `EmptyFileIsNotWritten`).
* After a FileSync that had something to complete, writes are accepted and lost: the object stays what
  it was at the sync, and it is what the calls wrote if and only if no later write had bytes
  (`WritesAfterSyncAreLost`, and the run of `SecondByteIsLost`). The source names the limit in a
  comment (src/s3_multi_part_upload.cpp:258-260), but nothing refuses the write. A FileSync before
  the first byte does no harm (`FinalizedIffWritten`).
* A thread limit of zero, which the setting accepts (src/httpfs_extension.cpp:113), makes the first
  full part wait for `uploads_in_progress < 0` (src/s3_multi_part_upload.cpp:232-234). A sleeping
  writer has a thread that will wake it if and only if the limit is above zero (`SleeperHasWaker`,
  `SleepEnds`); with zero it waits for ever (`WaitsForever`, and the run of `LimitZeroHangs`), and
  only files without a full part are finished (`FinishedWithoutThreads`).
* A full download seals the file with the body of its complete attempt if and only if some block
  arrived or the length was zero before, and the attempts that broke left no bytes behind
  (`CachedFile.Download`, with `DownloadWithoutBlocks` and `RepeatedDownload`). A read after the
  fallback is right if and only if neither matters (`Usable`, in `HTTPFileHandle.Redirected`); the
  comparison of the sizes catches the second case unless the object has also changed its size, and
  never the first, after which the read takes its bytes from a buffer that was not allocated
  (`RedirectOutcome`, `EmptyDownloadIsRead`). There is no ETag check on a full download, so such a
  read returns the bytes of the version that was downloaded.
* After a full download that failed, the handle keeps a cached file that was never initialized
  (src/httpfs.cpp:992-1005), and every later read throws the internal error of
  src/httpfs.cpp:767-769 without asking the server (`ReadsAfterFailedDownload`).
* A worker that was accepted before shutdown may wake the multi handle after it has been cleaned up:
  exactly those that had not woken it by then can (`UseAfterCleanup`, and the run of
  `WakeAfterCleanup`).
* A credential refresh fails a call exactly if it gives up or the third reload still finds what was
  rejected (`FailsIff`); without that, every call succeeds (`OneRefreshForAll`).
* An opener that waited for the download of a shared file keeps the file's lock while it reads, and
  openers that looked before the file was initialized wait for it to close
  (`WaitsForReader`, `ReaderKeepsLock`).
* A list request whose last answer has status 301 returns that answer's body as its result if and
  only if no redirect was followed before, the answer has an empty region header, and the request was
  sent with a region (`ListRequest`, `RedirectReadAsListing`).
* The assertion on the part size fails for sizes a user can set (`PartsCoverFile`,
  `AssertionFails`), and the part size wraps to zero when rounding leaves 64 bits
  (`PartSizeIsLegal`, `PartSizeVanishes`).
* Keys are written into the body of a bulk deletion without escaping (src/s3fs.cpp:1392-1394). The
  endpoint reads the keys that were meant if and only if none of them has a `<`, a `&`, a carriage
  return, a `]]>` or a character that XML forbids (`BodyReadsBack`, `KeysReadAsMeant`); otherwise one
  key can even be read as two others (`OneKeyReadsAsTwo`).
* The key of a batch of deletions lists headers without their number, and so it is injective only
  because no S3 secret has a provider named by a number (`KeyInjective`); with one it is not
  (`NumericProviderCollides`).

## Model

| member | source | states |
|---|---|---|
| PathMatch.Match | src/s3fs.cpp:1516-1549 | for a whole key the S3 matcher decides the declarative meaning of the pattern, where `**` covers any number of segments and at least one at the end; for a prefix it decides agreement up to the first `**` |
| PathMatch.MatchHuggingFace | src/hffs.cpp:94-117 | the second matcher decides the same meaning |
| PathMatch.DescendsIsDenotes | src/s3fs.cpp:1516-1549 | the recursive reading of a pattern that the loops follow is its declarative meaning by cut positions |
| PathMatch.PruningSound | src/s3fs.cpp:1516-1549 | a prefix with a matching extension is never rejected |
| PathMatch.PruningExact | src/s3fs.cpp:1516-1549 | where every pattern segment has some name, a prefix is kept if and only if some extension of it matches |
| GlobWalk.ListingOwes | src/s3fs.cpp:1607-1748 | every matching key below a prefix is owed by exactly one entry of its listing, with or without delimiter |
| GlobWalk.PrunedOwesNothing | src/s3fs.cpp:1622-1627 | a common prefix that the matcher rules out has no wanted object below it |
| GlobWalk.PageOwes | src/s3fs.cpp:1628-1635 | what a listing owes is split between a page's objects, its common prefixes and the rest behind the next token, whatever the page |
| GlobWalk.ExpandKeeps | src/s3fs.cpp:1607-1748 | each call moves what it reads from owed to emitted, loses none, repeats none and leaves strictly less work |
| GlobWalk.S3GlobResult.ReadPrefixPage | src/s3fs.cpp:1620-1649 | one page of the current common prefix with one request, or none if it is pruned, and the next prefix off the stack |
| GlobWalk.S3GlobResult.RequestTopLevel | src/s3fs.cpp:1655-1711 | the first truncated flat page picks the mode by the estimate, and a delimited walk then starts with a second request; otherwise one is sent |
| GlobWalk.S3GlobResult.ReadTopLevelPage | src/s3fs.cpp:1650-1722 | one top-level page; the stack of prefixes is empty, so the internal exception at line 1652 cannot be raised |
| GlobWalk.S3GlobResult.CountFolders | src/s3fs.cpp:1676-1691 | the set of parent folders of a page's files, for the estimate |
| GlobWalk.S3GlobResult.Emit | src/s3fs.cpp:1729-1746 | appends exactly the files of the page whose whole key matches, in order |
| GlobWalk.S3GlobResult.Advance | src/s3fs.cpp:1724-1747 | a page is read, the list is finished exactly when no token and no prefix are left, and the page's matching files are appended |
| GlobWalk.S3GlobResult.ExpandNextPath | src/s3fs.cpp:1607-1748 | one call keeps the account of emitted and owed objects, sends at most two requests and makes progress; a finished list stays as it is |
| GlobWalk.S3GlobResult.ExpandAll | src/s3fs.cpp:1607-1748 | however the server pages, the walk ends and emits each object of the bucket under the literal prefix whose key is no directory marker and matches the pattern exactly once, and nothing else |
| GlobOrder.SubtreeFirst | src/s3fs.cpp:1636-1648 | the walk is depth first: until it is back at what lay on the stack it emits exactly the wanted objects under the current prefix, then goes on with the newest prefix of that stack |
| GlobOrder.EmittedIsOwed | src/s3fs.cpp:1607-1748 | what any number of calls has emitted and what is still owed is what was owed at the start |
| GlobOrder.ModeIs | src/s3fs.cpp:1655-1711 | the delimited walk is picked exactly if the first truncated flat page has more than a hundred files for each of their folders |
| MultipartTheorems.RunInv | src/s3_multi_part_upload.cpp:1-300 | the invariant over buffers, counters, tags, sleepers and the endpoint holds in every reachable state |
| MultipartTheorems.FinishedRunCommits | src/s3fs.cpp:799-808 | a finalization that returns normally has committed exactly what is accepted, which `WrittenIsInput` ties to the calls; if that is nothing, an upload is opened and neither completed nor replaced by a PUT |
| MultipartTheorems.EveryRunIsSafe | src/s3_multi_part_upload.cpp:15-24 | in every state of every run at most one of single PUT and completion has happened, each buffer is sent at most once, and the counter never underflows; that nothing but the input is committed is `OnlyInputIsCommitted` |
| MultipartTheorems.PartCovers | src/s3_multi_part_upload.cpp:26-54 | part i holds the bytes from i * part_size on, a full part unless it is the last |
| MultipartTheorems.CompletionListsEveryPart | src/s3_multi_part_upload.cpp:82-100 | a completion lists parts 1..k without a gap, each stored under its tag, all but the last full |
| MultipartTheorems.NoUnknownPart | src/s3_multi_part_upload.cpp:92-98 | before the completion is built the tag map's keys are exactly 0..parts_uploaded-1 |
| MultipartTheorems.FailureForbidsCompletion | src/s3_multi_part_upload.cpp:164-184 | once a part upload has failed no later step sends a completion or commits anything |
| MultipartTheorems.InProgressCounts | src/s3_multi_part_upload.cpp:190-246 | uploads_in_progress is the number of reserved or live uploads and stays within the thread limit |
| MultipartWrites.WrittenIsInput | src/s3fs.cpp:1477-1511 | in every run what is accepted, with what a write in progress still holds, is the concatenation of the bytes passed to all writes so far; only an exception drops the rest of a write |
| MultipartWrites.WriteIsRefusedIff | src/s3fs.cpp:1484-1489 | a write throws at its start if and only if it has bytes and does not continue where the writes before it ended |
| MultipartWrites.InputIsCommitted | src/s3fs.cpp:1477-1511 | a finalization that returns has committed exactly the bytes passed to the writes, or nothing if there were none, and the bytes of each write lie where it put them |
| MultipartWrites.OnlyInputIsCommitted | src/s3_multi_part_upload.cpp:15-24 | in every state of every run, after failures as well, what is committed is all the bytes passed to the writes |
| MultipartWrites.ThrownHasCause | src/s3_multi_part_upload.cpp:146-255 | as long as no write is misplaced and no request fails, no call throws, no error is recorded and no thread dies; an upload that is open is not opened again |
| MultipartWrites.KmsNeedsCompletion | src/s3_multi_part_upload.cpp:270-278 | with a KMS key no run sends a single PUT, and what is committed is committed by a completion |
| MultipartWrites.SmallFileIsOnePut | src/s3_multi_part_upload.cpp:269-276 | a finished file smaller than a part was sent as one PUT without an upload, unless there is a KMS key or an empty sync opened one before |
| MultipartWrites.ErrorStopsUploads | src/s3_multi_part_upload.cpp:221-221 | once an error is recorded and no part is in the writer's hands, no later step hands one over |
| MultipartProgress.CallsReturn | src/s3_multi_part_upload.cpp:207-293 | while a call is in progress some step of its work is possible if and only if the thread limit is above zero or the writer is awake, and every such step lowers a bound |
| MultipartSleep.NoThreads | src/s3_multi_part_upload.cpp:228-246 | with a thread limit of zero no run ever has an upload thread |
| MultipartSleep.SleeperHasWaker | src/s3_multi_part_upload.cpp:228-290 | while the writer sleeps on either condition variable, some upload thread has not finished notifying if and only if the thread limit is above zero |
| MultipartSleep.SleepEnds | src/s3_multi_part_upload.cpp:190-205 | no wake-up is lost: while the writer sleeps a thread can step if and only if the limit is above zero, and every step but a spurious wake-up wakes the writer or uses up one of finitely many thread steps |
| MultipartSleep.WaitsForever | src/s3_multi_part_upload.cpp:232-234 | with a limit of zero a writer that waits for a slot waits in every later state, commits nothing, and only a spurious wake-up moves it |
| MultipartSleep.FinishedWithoutThreads | src/s3_multi_part_upload.cpp:228-246 | with a limit of zero a finished file is empty or was sent as one PUT |
| MultipartSleep.LimitZeroHangs | src/s3_multi_part_upload.cpp:232-234 | the run of one byte that fills its part under a limit of zero: the writer sleeps and nothing but a spurious wake-up is possible |
| MultipartSync.FinalizedIffWritten | src/s3_multi_part_upload.cpp:15-24 | a finalization that returns has finalized the upload if and only if some write had bytes, so a sync before the first byte leaves the handle usable |
| MultipartSync.WritesAfterSyncAreLost | src/s3fs.cpp:1472-1475 | after a sync that completed the upload no continuation of writes, syncs and closes changes the committed object; later writes are accepted in turn, and the object is what was passed to all writes if and only if none after the sync had bytes |
| MultipartSync.EmptyFileIsNotWritten | src/s3_multi_part_upload.cpp:261-293 | the run of a handle closed without a write: an upload is opened, nothing is committed, the close returns normally |
| MultipartSync.SecondByteIsLost | src/s3_multi_part_upload.cpp:15-19 | the run of a byte, a sync, another byte and a close that returns normally with only the first byte committed |
| FullDownload.CachedFile.AllocateBuffer | src/http_state.cpp:26-32 | a fresh buffer of the asked capacity |
| FullDownload.CachedFile.GrowBuffer | src/http_state.cpp:34-41 | a larger fresh buffer that keeps the first bytes |
| FullDownload.CachedFile.Write | src/http_state.cpp:43-47 | the block is copied to its offset, within capacity, and the rest stays |
| FullDownload.CachedFile.Receive | src/httpfs.cpp:344-363 | after one more block the buffer holds the body so far, capacity and bytes copied stay below twice its length, and the doubling loop ends |
| FullDownload.CachedFile.Download | src/httpfs.cpp:344-363 | for any blocks the buffer's first bytes are those of all attempts, capacity and copying stay below twice their length, and the file is sealed with the complete body if and only if some block arrived or the length was zero, and the broken attempts were empty |
| FullDownload.DownloadWithoutBlocks | src/httpfs.cpp:344-363 | a download without any block into any untouched file is recorded with the handle's length, its buffer unallocated |
| FullDownload.RepeatedDownload | src/httpfs.cpp:344-363 | any download repeated after bytes had arrived is sealed with those bytes in front of the body |
| RangeReader.HTTPFileHandle.constructor | src/httpfs.cpp:1148-1155 | a handle opened without a download starts with an empty buffer of the initial size, or none for direct and parallel access, in order for the version found at open |
| RangeReader.HTTPFileHandle.RunAttempt | src/httpfs.cpp:383-447 | the handlers of one attempt: a final status restarts the body; which of the ETag, length and size checks raises what; and what lies in the target afterwards, also when one does |
| RangeReader.HTTPFileHandle.TakeChunks | src/httpfs.cpp:435-447 | the blocks are laid out one after the other, and more bytes than asked for are refused |
| RangeReader.HTTPFileHandle.RunAttempts | src/httpfs.cpp:383-447 | any number of attempts: the checks of a last final one, and what it leaves over what the target held before it |
| RangeReader.HTTPFileHandle.RunGetRangeRequest | src/httpfs.cpp:373-463 | after any number of attempts the last one and the flags decide the outcome, success and every error; what arrived is in place, also after an error |
| RangeReader.HTTPFileHandle.TryRangeRequest | src/httpfs.cpp:719-760 | a request of any number of attempts comes to exactly the outcome the source gives its last attempt and its flags, the fallback included (`Verdict`); what arrived is in the target over what it held, also after an error; statistics grow unless access is parallel |
| RangeReader.HTTPFileHandle.AdaptReadBufferSize | src/httpfs.cpp:691-709 | the buffer doubles after a sequential request until 32 MiB |
| RangeReader.HTTPFileHandle.FindInBuffer | src/httpfs.cpp:806-813 | where a location is in the read buffer, and how much follows it there |
| RangeReader.HTTPFileHandle.Bypass | src/httpfs.cpp:831-840 | the rest of a read that is larger than the buffer goes into the caller's memory with one request, over what that memory held; the buffer stays as it was |
| RangeReader.HTTPFileHandle.Refill | src/httpfs.cpp:842-851 | a refill asks for the adapted size from the current offset and leaves what arrived at the start of the buffer, over the old bytes unless the buffer was enlarged; the bounds and the position change only if it succeeds |
| RangeReader.HTTPFileHandle.FetchMore | src/httpfs.cpp:828-852 | a used-up buffer is bypassed or refilled with one request, which accounts for the rest of the read and for the bounds and bytes of the buffer, also if it throws |
| RangeReader.HTTPFileHandle.Round | src/httpfs.cpp:816-854 | one round of the loop: takes what the buffer has, and fetches the rest if that is not all |
| RangeReader.HTTPFileHandle.ReadBuffered | src/httpfs.cpp:815-855 | a buffered read takes at most two rounds and one request; it returns what the buffer had followed by what the request left, and the bounds and bytes of the buffer afterwards are stated, also if it throws |
| RangeReader.HTTPFileHandle.ReadCached | src/httpfs.cpp:766-779 | a read of the cached file: its bytes, or exactly which error |
| RangeReader.HTTPFileHandle.ReadInternal | src/httpfs.cpp:762-858 | the same for every path, cached, direct and buffered, from a buffer that may hold anything |
| RangeReader.HTTPFileHandle.FirstHalf | src/httpfs.cpp:762-858 | a read whose answer is complete in the end, after any redirects and broken attempts, succeeds; from a buffer in order, a read that succeeds returns the bytes of the version recorded at open on a whole answer, and on another final answer if and only if it reached the last byte needed, up to what lay there before; otherwise the bytes are right exactly if those from the buffer were as well |
| RangeReader.HTTPFileHandle.FullDownload | src/httpfs.cpp:992-1013 | takes over or downloads the shared file; with an unchanged length it holds one version if and only if the download is usable |
| RangeReader.HTTPFileHandle.Redirected | src/httpfs.cpp:868-894 | after the fallback: the exact outcome in terms of status and sizes, that the bytes are those of the downloaded version if and only if the download is usable, and what the handle keeps after each error |
| RangeReader.HTTPFileHandle.Read | src/httpfs.cpp:862-897 | the whole read: what its first half returns as in `FirstHalf`, success on a complete answer included, when it falls back, and what the second half comes to as in `Redirected`; bytes are always those of the one version recorded at open or downloaded |
| RangeReader.HTTPFileHandle.ReadNext | src/httpfs.cpp:900-906 | a read at the handle's offset stops at the end of the file and advances the offset; its bytes are right as those of `Read` are |
| RangeServer.LandedRight | src/httpfs.cpp:435-447 | the bytes that a request leaves in its target are the file's if and only if the body reached as far as needed or what lay behind it was right |
| RangeServer.FromVersion | src/httpfs.cpp:394-432 | a final answer that the handlers take comes from the version its replies are pinned to |
| RangeServer.RequestReturns | src/httpfs.cpp:815-855 | a read made of bytes from the buffer and of what a request left is right, and leaves the buffer in order, exactly under that condition |
| RangeBuffer.DoneReturns | src/httpfs.cpp:762-858 | what any successful read returns and does to the order of the buffer, from any buffer, in terms of the version its replies are pinned to |
| RangeBuffer.DoneDecides | src/httpfs.cpp:711-760 | a read without a request succeeds, and otherwise the last attempt of its request and the flags decide the read |
| RangeBuffer.OneRequestCovers | src/httpfs.cpp:828-852 | a buffered read sends no request exactly if the buffer covers it, else one from its first missing byte; the buffer is enlarged, to twice its size, exactly if a refill continues the last request, so never after a skip |
| RangeBuffer.DoneTies | src/httpfs.cpp:831-851 | what lies behind a short answer is what the caller's memory or the old buffer held there |
| RangeBuffer.OrderedReturns | src/httpfs.cpp:762-858 | from a buffer in order a whole answer gives right bytes and a buffer in order, and another final answer gives right bytes exactly as far as it went |
| RangeBuffer.OthersKeep | src/httpfs.cpp:785-804 | a read that does not refill leaves the order and the bytes of the buffer, also if it throws |
| RangeBuffer.BrokenRefill | src/httpfs.cpp:842-851 | after a refill that throws, the bounds stay, what arrived lies at the start of the buffer, and the buffer is in order if and only if that and the rest are what the file has there |
| ReaderRuns.LastRefillDecides | src/httpfs.cpp:762-858 | in any run of reads the order of the buffer is what the newest refill has left, or what it was at the beginning |
| ReaderRuns.RunIsRight | src/httpfs.cpp:762-858 | in any run of reads, with any replies and exceptions in between, a read is right if it and the newest refill before it succeeded on a whole answer |
| ReaderRuns.OrderAfterRefill | src/httpfs.cpp:842-851 | after a refill that succeeded on any final answer the buffer is in order if and only if that answer reached its end, up to chance |
| ReaderRuns.ReadAll | src/httpfs.cpp:862-866 | a series of reads through one handle is such a run, ends early only with a fallback, and returns the bytes of the version recorded at open wherever the run theorem says so |
| RangeServer.CleanIsAccepted | src/httpfs.cpp:741-756 | a reply that ends with the complete range is accepted and whole, however many attempts came before |
| RangeServer.CleanSucceeds | src/httpfs.cpp:390-391 | so a read succeeds after any number of redirects and broken attempts |
| RangeServer.ChangeIsNoticed | src/httpfs.cpp:394-409 | with ETag checks, a final answer from another version makes the read throw the error for a changed file, and never fall back |
| RangeServer.IgnoredRange | src/httpfs.cpp:419-432 | a final answer of another length than asked for leads to the fallback, or to its error where that is disabled |
| RangeServer.ErrorStatusThrows | src/httpfs.cpp:452-455 | a failed request or an error status is reported as that and never taken for a server without ranges |
| ReaderFindings.ShortReadGoesUnnoticed | src/httpfs.cpp:456-460 | on any path, an accepted answer that misses the last byte needed, over memory that differs from the file, makes the read return normally with wrong bytes |
| ReaderFindings.ShortReadExample | src/httpfs.cpp:741-756 | such a read: status 206, a lowered success flag and no body |
| ReaderFindings.EmptyDownloadIsRead | src/httpfs.cpp:1005-1005 | any read that falls back to a download without a body passes the size comparison and is served from outside the buffer |
| ReaderFindings.EmptyDownloadExample | src/httpfs.cpp:862-897 | such a read: an object of two bytes that is emptied between the first answer and the download |
| ReaderFindings.ReadsAfterFailedDownload | src/httpfs.cpp:766-769 | after any failed download, in any series of later reads, each ends with the internal error and without a request |
| ReaderFindings.BreakRefill | src/httpfs.cpp:842-851 | a read whose refill breaks off throws and leaves the delivered bytes under unchanged bounds |
| ReaderFindings.FailedRefillSpoils | src/httpfs.cpp:806-826 | a later read within those bounds sends no request, returns normally and is wrong wherever a delivered byte differs from the file |
| ReaderFindings.FailedRefillExample | src/httpfs.cpp:842-851 | such reads of any object of four bytes whose first and third byte differ |
| SequentialScan.LimitSteps | src/include/httpfs.hpp:124-125 | the adaptive size doubles from 1 MiB and stays at 32 MiB |
| SequentialScan.NextScanning | src/httpfs.cpp:828-851 | a read of at most 1 MiB during a scan is served by the buffer or by the next refill, never by the bypass |
| SequentialScan.ScanRefills | src/httpfs.cpp:762-858 | on a fresh handle request i of a sequential scan is refill i |
| SequentialScan.ReachIs | src/httpfs.cpp:691-709 | k refills cover 2^k - 1 MiB for k <= 6 and 32 MiB more each after that, until the end of the file |
| SequentialScan.ScanRefillSizes | src/httpfs.cpp:691-709 | refill i asks for min(2^min(i, 5) MiB, remaining), is sent only when the scan needs it, and i refills suffice for what they cover |
| DispatcherSafety.StepKeeps | src/httpfs_curl_multi_dispatcher.cpp:51-214 | every step of workers, dispatcher thread and destructor keeps the invariant |
| DispatcherSafety.AddTies | src/httpfs_curl_multi_dispatcher.cpp:147-158 | the handle about to be added is attached to nothing, and afterwards points to its own waiter |
| DispatcherTheorems.OnePlaceEach | src/httpfs_curl_multi_dispatcher.cpp:139-214 | in every run each accepted transfer is in exactly one of queue, being added, in flight or signalled |
| DispatcherTheorems.PointersAreSafe | src/httpfs_curl_multi_dispatcher.cpp:35-40 | every waiter that is dereferenced is alive and unsignalled, and is signalled only with its handle detached |
| DispatcherTheorems.NeverTouchedAgain | src/httpfs_curl_multi_dispatcher.cpp:159-184 | no step after the signal dereferences or signals the waiter again |
| DispatcherTheorems.ReportsReachTheirTransfer | src/httpfs_curl_multi_dispatcher.cpp:163-184 | in every run what libcurl reports for a handle is signalled to the transfer that was submitted with it |
| DispatcherTheorems.SubmitReturnsItsResult | src/httpfs_curl_multi_dispatcher.cpp:51-73 | Submit returns the code that libcurl reported for its own handle while it waited; without a report, the abort code, and shutdown has begun |
| DispatcherTheorems.SubmitReturns | src/httpfs_curl_multi_dispatcher.cpp:51-73 | what a call to Submit has returned is the code reported for its own handle; without a report it is 42, which is not success, and shutdown has begun, whether the call was turned away or accepted |
| DispatcherTheorems.RejectedAtOnce | src/httpfs_curl_multi_dispatcher.cpp:54-65 | after shutdown began a Submit returns 42 at once and leaves the dispatcher untouched; before, it is queued with its handle |
| DispatcherProgress.TransferStarts | src/httpfs_curl_multi_dispatcher.cpp:139-157 | in every run a waiting transfer is attached with its own handle after a bounded number of steps of the dispatcher thread, unless shutdown begins |
| DispatcherProgress.AcceptedWaits | src/httpfs_curl_multi_dispatcher.cpp:51-68 | an accepted transfer waits to be started, within a bound that depends on what is queued and in flight |
| DispatcherTheorems.ShutdownDrains | src/httpfs_curl_multi_dispatcher.cpp:99-136 | after shutdown began the dispatcher thread ends within a bound, and then every accepted transfer is signalled once, the queue is empty and nothing is attached |
| DispatcherTheorems.UseAfterCleanup | src/httpfs_curl_multi_dispatcher.cpp:99-115 | after the cleanup the multi handle can be used by exactly the workers accepted before shutdown that had not woken it by then, and by nobody else |
| DispatcherTheorems.WakeAfterCleanup | src/httpfs_curl_multi_dispatcher.cpp:64-68 | the run of such a use |
| CachedFileSharing.StepKeeps | src/http_state.cpp:6-32 | every step of any opener keeps the lock discipline |
| CachedFileSharing.SealedOnce | src/http_state.cpp:14-47 | the file is initialized at most once, the internal exceptions and the assertion about the lock are unreachable, and buffer, capacity, size and flag change only under the lock while uninitialized |
| CachedFileSharing.BytesStay | src/include/http_state.hpp:14-34 | once initialized, buffer, capacity and size never change |
| CachedFileSharing.WriteIs | src/http_state.cpp:43-47 | a block goes where it was put and leaves everything else as it was |
| CachedFileSharing.SealedWith | src/http_state.cpp:14-24 | a file that can be read was sealed by one downloader that held the lock, with the size given and the bytes there then, and the lock was free afterwards |
| CachedFileSharing.NoDeadlock | src/http_state.cpp:6-24 | an opener that has not closed, or the one whose lock it waits for, can take a step |
| CachedFileSharing.ReadersDoNotLock | src/http_state.cpp:6-12 | an opener of an initialized file never takes the lock nor waits for it |
| CachedFileSharing.WaitsForReader | src/http_state.cpp:6-12 | a waiting opener of an initialized file goes on if and only if no handle holds the lock, and one that does is a reader |
| CachedFileSharing.ReaderKeepsLock | src/httpfs.cpp:992-1013 | the run in which a third opener waits for a reader of a file that is complete |
| S3Auth.AwsEndpoints | src/s3fs.cpp:587-596 | the test finds exactly the empty endpoint, the global one and those of a region |
| S3Auth.SetRegionMoves | src/s3fs.cpp:648-651 | a move to a region changes the region and an AWS endpoint to that of the region, and nothing else |
| S3Auth.ReloadAdopts | src/s3fs.cpp:268-273 | a reload makes exactly this of the stored settings: their keys and HTTP parameters, the own region after a redirect, and its endpoint unless another one is stored |
| S3Auth.ReloadKeepsRegion | src/s3fs.cpp:268-272 | a reload leaves a redirected client in its region and with that region's endpoint, whatever was stored |
| S3Auth.Client.Reload | src/s3fs.cpp:260-286 | reports a change exactly when what it makes of the store differs from the rejected material, and only then takes it over |
| S3Auth.Client.TryRefresh | src/s3fs.cpp:288-320 | success exactly if one of the three looks at the store has something new, which is then taken over; failure changes nothing, and a redirected client keeps its region |
| S3Auth.Client.RunRequest | src/s3fs.cpp:452-492 | at most three requests; each retry follows a rejection that a refresh could help or a redirect, each once; a request after a redirect to r has region r and, unless the endpoint is not one of Amazon, the endpoint `s3.r.amazonaws.com`; no refresh that had something to offer is missed |
| S3Auth.Client.ListRequest | src/s3fs.cpp:1943-2063 | the same for the counted loop of the list request, the exact condition of each outcome, and that the final "Exceeded retry count" is unreachable |
| S3Auth.RedirectReadAsListing | src/s3fs.cpp:2008-2060 | for any client with a region, a first answer of status 301 with an empty region header is returned as a listing |
| CredentialRefresh.LocksHold | src/include/http_state.hpp:101-107 | in every run the lock order holds: the refresh lock and each handle's lock have the one holder whose call is at that point |
| CredentialRefresh.OneRefreshForAll | src/s3fs.cpp:730-741 | when refreshes change the material, every call returns true and leaves its handle without the rejected material, at most one refresh runs, and exactly one if some handle could not do without |
| CredentialRefresh.SuccessIsUsable | src/s3fs.cpp:275-285 | in every run a call that has returned true has left its handle with other material than the rejected one, for good |
| CredentialRefresh.MaterialIsFromStore | src/s3fs.cpp:268-281 | in every run a handle has the material it started with, or what it made of the store when one of its calls returned true with it |
| CredentialRefresh.LockIsNeeded | src/s3fs.cpp:304-310 | a call asks for the refresh lock only after a look at the store without it found nothing new |
| CredentialRefresh.RunsEnd | src/s3fs.cpp:288-320 | a run has at most six steps a call |
| CredentialRefresh.NoDeadlock | src/s3fs.cpp:310-320 | in every run, as long as a call has not returned some call can take a step |
| CredentialRefresh.FailsIff | src/s3fs.cpp:311-319 | in every run a call has returned false if and only if its refresh gave up or its third reload found what was rejected |
| CredentialRefresh.RefreshIsNeeded | src/s3fs.cpp:311-315 | in every run a refresh runs only under the lock, while the store has nothing new for the handle |
| CredentialRefresh.ChangeIsLast | src/s3fs.cpp:309-319 | in every run no refresh runs after one that changed the material for all handles |
| ConnectionCache.ProbeVisitsOnce | src/httpfs_connection_caching.cpp:26-28 | the masked probe visits each of the 16 pools exactly once from any start |
| ConnectionCache.MaskIsRemainder | src/include/httpfs_client.hpp:90-92 | the bitwise mask of the probe is the remainder, as the power of two asserted there gives |
| ConnectionCache.Cache.Find | src/httpfs_connection_caching.cpp:22-42 | takes out the first client with the URL in probe order, which is then in no slot; finds none exactly if no reachable pool has one |
| ConnectionCache.Cache.Store | src/httpfs_connection_caching.cpp:44-80 | fills the first empty slot of the first reachable pool in probe order that has one, else replaces one client in the first pool that can be locked, else drops; evicts only when every reachable pool is full, and no client is ever in two slots |
| ConnectionCache.Cache.Clear | src/httpfs_connection_caching.cpp:82-89 | empties every slot |
| ConnectionSharing.OneOwner | src/httpfs_connection_caching.cpp:22-80 | in every interleaving of finds and stores each client is in exactly one place: a slot, a thread's hands or destroyed |
| ConnectionSharing.StoreLosesAtMostOne | src/httpfs_connection_caching.cpp:61-80 | only the step that ends a store destroys a client, and at most one |
| ConnectionSharing.FindVisitTakes | src/httpfs_connection_caching.cpp:30-39 | in every run a find that gets at a pool takes the first client there with the URL, and goes on exactly if there is none |
| ConnectionSharing.StoreVisitPuts | src/httpfs_connection_caching.cpp:53-78 | in every run a store that gets at a pool uses the first empty slot, or goes on exactly if there is none; in the second pass it replaces the client that the random number picks |
| ConnectionSharing.FindMissesOnlyIf | src/httpfs_connection_caching.cpp:27-41 | whatever other threads do meanwhile, a find that ends without a client has met every pool since its call, each busy or without such a client |
| ConnectionSharing.DroppedOnlyIf | src/httpfs_connection_caching.cpp:50-79 | a client is dropped only after its store has met every pool twice, busy or full at first and busy again |
| ConnectionSharing.VisitsEnd | src/httpfs_connection_caching.cpp:22-80 | a thread can always make its next visit; a find is over after at most 17, a store after at most 34 |
| DeleteBatchKey.DecimalRoundTrip | src/s3fs.cpp:1206-1208 | the decimal length reads back and contains no colon |
| DeleteBatchKey.EncodeInjective | src/s3fs.cpp:1205-1224 | two lists of parts have the same encoding only if they are equal |
| DeleteBatchKey.KeyInjective | src/s3fs.cpp:1226-1340 | the composed key of URL, auth, HTTP parameters, headers, secrets and directory is the same exactly for equal ones, although headers and lookups have no fixed number |
| DeleteBatchKey.NumericProviderCollides | src/s3fs.cpp:1260-1300 | with a provider named by a number two different identities have the same key |
| DeleteBatch.Group | src/s3fs.cpp:1352-1375 | there is a batch for an identity exactly if some entry has it, with the keys and the paths of exactly its entries, in input order |
| DeleteBatch.IndicesAre | src/s3fs.cpp:1352-1375 | the positions of a batch are increasing and exactly those of the entries with its identity |
| DeleteBatch.Post | src/s3fs.cpp:1413-1446 | a request is posted once, and once more exactly if the first answer is an authentication failure that could be refreshed; the last answer decides |
| DeleteBatch.SendBatch | src/s3fs.cpp:1381-1461 | the requests of one batch are its chunks, up to the first refused one, and what was posted is these requests with their repetitions |
| DeleteBatch.RemoveFiles | src/s3fs.cpp:1347-1463 | in any order of the batches, the requests of an identity ask for the keys of its entries in input order, each request with the path of its first one, and on success for all of them; all requests but a last refused one were accepted; nothing else was posted |
| DeleteBatch.ChunksPartition | src/s3fs.cpp:1387-1388 | the first n chunks join to the first keys in order, none empty, none above 1000 |
| DeleteBody.OneKeyBody | src/s3fs.cpp:1388-1399 | the body for one key, spelled out |
| DeleteBatch.EveryKeyOnce | src/s3fs.cpp:1379-1400 | after a removal without errors the joined keys of an identity's requests are the keys of exactly the entries with it, at increasing positions, in ceil(n / 1000) requests of at most 1000 |
| DeleteBody.BodyReadsBack | src/s3fs.cpp:1387-1397 | an endpoint that reads the body as XML finds exactly the keys that were meant if and only if all of them are plain, whatever references it knows |
| DeleteBody.OneKeyReadsAsTwo | src/s3fs.cpp:1392-1394 | a key with the markup of an object in it is read as the two keys around it |
| DeleteBatch.KeysReadAsMeant | src/s3fs.cpp:1379-1400 | after a removal without errors every request of an identity was read as meant if and only if all its keys are plain |
| PartSize.PartSizeIsLegal | src/s3fs.cpp:1153-1161 | the part size is the least block multiple that is large enough, of at least 5 MiB, if and only if the rounding fits 64 bits, else it is zero |
| PartSize.PartsCoverFile | src/s3fs.cpp:1162-1162 | the parts reach the maximum file size except exactly when the quotient is at least 5 MiB, a block multiple and has a remainder; never short by max_parts bytes |
| PartSize.AssertionFails | src/s3fs.cpp:1162-1162 | a setting for which the assertion fails |
| PartSize.PartSizeVanishes | src/s3fs.cpp:1157-1161 | a setting for which the part size is zero |

## Left out

- libcurl, httplib, TLS, proxies, request signing, secret creation, settings, logging and profiling: foreign code or plumbing; a request is its outcome.
- Glob: URL decoding is taken to be the identity, although `ExpandNextPath` decodes the current prefix again for a second page; keys with empty segments inside are matched segment by segment, because `StringUtil::Split` is not part of this model; the recursive-globbing setting does not change during one glob.
- Hugging Face listing and URL building: only its matcher is modelled.
- MultipartTheorems.FinishedRunCommits: several threads writing one handle, and failure to start a thread or allocate memory, are not modelled; retries inside one PUT belong to the request layer.
- RangeReader.HTTPFileHandle.Read: if several attempts end with a status from 300 to 399 and the success flag is up all the same, it is left open whether the read succeeds and, where it does because earlier attempts had delivered as many bytes as were asked for, which bytes it has; what reaches the target is left open if a body is longer than what was asked for; a read past the end of a file that was not downloaded is not covered, since the source then subtracts below zero, and neither are reads after a size mismatch, where the handle keeps the length of the download; in the cached path a download without any block gives the outcome `OutOfBounds` where the source reads outside its buffer.
- ReaderRuns.ReadAll: ends with the first fallback; reads from the downloaded file are described by `FirstHalf`.
- RangeReader.HTTPFileHandle.constructor: how a handle gets its length and ETag at open is not modelled: the metadata cache, the HEAD request and its fallbacks, the download at open, and version pinning.
- DispatcherTheorems.ShutdownDrains: allocation failure inside the dispatcher loop, and libcurl's own progress before shutdown, are not modelled.
- CachedFileSharing.SealedOnce: the contents of a file whose download was given up and continued by another opener are not described.
- CredentialRefresh.OneRefreshForAll: the store changes by refreshes only, and no region redirect happens while the calls run.
- S3Auth.Client.RunRequest: other threads that use the same handle during the loop are not modelled; `others` stands for the compared fields that no operation treats on their own.
- ConnectionCache.Cache.Find: contention decides which pools are skipped, but no other thread changes the pools between two visits of the probe; interleaved calls are the subject of `ConnectionSharing`, where a busy pool is one that some visit finds locked.
- DeleteBody.BodyReadsBack: a body is a sequence of characters, without the encoding to UTF-8, and a reader that accepts other forms of the same XML, or keeps going after an error, is not modelled.
- DeleteBatch.RemoveFiles: how a path's URL, auth material, headers and secrets are found is not modelled, only what is made of them; a refresh also renews the auth material of the requests that follow in its batch, which are still listed under the identity they were grouped by.
- PartSize.PartsCoverFile: the product is taken without wrap-around, and a limit of zero parts, a division by zero in the source, is excluded.
- The client cache of a handle, a generation counter; parsing of the last-modified time; error texts; the browser build: each is a few lines without state that spans calls.
