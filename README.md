# b3 chunked transfers, modelled in Dafny

This project models the transfer core of b3, a web front end for S3-compatible object storage.
The browser client (`b3/static/b3/transfer.js`) does four things:

- it cuts a file into 8 MiB chunks;
- it PUTs each chunk to a presigned URL through a retry loop with exponential backoff;
- it gives the chunks that failed a second, serial pass, then sorts the parts and finalizes the
  multipart upload;
- it downloads a list of presigned URLs, either into a directory the user picked (a stream written
  through an 8 MiB buffer) or, without a directory picker, through hidden links whose file names
  flatten the path.

It also turns dropped items and picked folders into the list of files to upload.

The server's `S3` class (`b3/s3.py`) does the rest:

- it mints the part targets of a multipart upload (`start_upload`);
- it parses `bucket/key` paths the way `pathlib` does (`parse_obj_path`);
- it lists a prefix page by page (`get_object_list`);
- it builds the download list for selected folders and files (`get_signed_url`) and the delete
  list (`prepare_delete`);
- it prunes its handle cache (`delete_handle`).

Modules:

- `Results` and `Text` (text.dfy): options, results, and JavaScript/Python `split`, `join`,
  `replace` and `rsplit` on one separator character.
- `ChunkPlan` (chunk_plan.dfy): the chunk count and byte ranges.
- `Retry` (retry.dfy): `upload_chunk_with_retry`, as a loop proved against a recursive
  specification.
- `Upload` (upload.dfy): `upload_single_file`, `upload_all` and `upload`.
- `Download` (download.dfy): `download`, `fallback_download`, `download_single_file` and
  `download_url`.
- `Drop` (drop.dfy): `uploadDroppedItems`, `readDirEntries`, `getFileFromEntry` and
  `uploadSelectedFolder`.
- `S3Paths` (s3_paths.dfy): `parse_obj_path` and `relative_to` on POSIX `pathlib` paths.
- `S3` (s3.py's operations): the server operations listed above.

Everything outside the program is a parameter:

- **Network.** An oracle gives the response to attempt `a` of chunk `c` in pass `p`. A fetch
  gives a sequence of body frames. The service answers a listing with a sequence of pages.
- **Directory picker and popup.** The user's choices are an `Environment` value.
- **Picked directory.** A `Tree` holds the paths of its directories and files. The entries of one
  download share it. `getDirectoryHandle` rejects when the name is not valid or a file is in the
  way; `getFileHandle` rejects when the name is not valid or a directory is in the way.
- **Written files.** `download_url` hands blobs to a writable stream. Following the WHATWG File
  System standard, they replace the file's contents only when the stream is closed.
- **Server answers.** `startupload` and `finishupload` are given as values.
- **boto3 client.** A presigned URL is the request it authorizes: operation, parameters and
  expiry. The id of a new multipart upload comes from a function of the file's index.

The browser runs chunks, files and downloads concurrently. The model runs them one after another
in index order.

Where the code and the project's own description of it differ, the model follows the code:

- A fetch that is rejected (no response at all) is not retried by `upload_chunk_with_retry`. The
  exception leaves the loop, so the chunk fails at once. Only responses without `ok` are retried.
- The first pass has no hard bound of five chunks in flight. The `Promise.race` over every promise
  ever started does not enforce one. The model runs the chunks sequentially, so it claims no bound.

## Model

| member | source | states |
|---|---|---|
| `ChunkPlan.ChunkCount` | b3/static/b3/transfer.js:29 | the chunk count is the integer ceiling of size / 8 MiB: the chunks hold every byte, one chunk fewer would not, and the count is zero exactly for an empty file |
| `ChunkPlan.ChunkRange` | b3/static/b3/transfer.js:37-38 | chunk `i` starts at `i * 8 MiB`, is not empty, ends within the file and is at most one chunk size long |
| `ChunkPlan.ChunkLength` | b3/static/b3/transfer.js:37-39 | every chunk's slice has between 1 byte and 8 MiB |
| `ChunkPlan.Plan` | b3/static/b3/transfer.js:36-39 | there is one byte range per chunk |
| `ChunkPlan.PlanTiles` | b3/static/b3/transfer.js:36-39 | the ranges tile the file: the first starts at 0, the last ends at the size, each starts where the previous one ends, and all but the last are full chunks |
| `ChunkPlan.ByteInOneChunk` | b3/static/b3/transfer.js:37-38 | each byte lies in exactly one chunk, number `b / 8 MiB` |
| `ChunkPlan.SumLengthsCovers` | b3/static/b3/transfer.js:36-39 | the first `k` chunks hold `min(k * 8 MiB, size)` bytes, so all chunks together hold the file |
| `Retry.UploadChunkWithRetry` | b3/static/b3/transfer.js:106-123 | the attempt loop's outcome, request count and sleeps are those of the recursive specification `Run` |
| `Retry.RunBounds` | b3/static/b3/transfer.js:107-121 | a call sends between 1 and `retries` requests, and sleeps `1000 * 2^k` ms after attempt `k`, after every request but the last |
| `Retry.DelaysWithMaxRetries` | b3/static/b3/transfer.js:115-117 | with `MAX_RETRIES` the sleeps are a prefix of 1000 ms, 2000 ms: there is no sleep after the last attempt |
| `Retry.RunUploads` | b3/static/b3/transfer.js:107-114 | a call resolves after `k + 1` requests if and only if the first `k` responses were not ok and response `k` is ok; it then resolves with that response's ETag |
| `Retry.RunFails` | b3/static/b3/transfer.js:107-121 | a call is rejected if and only if no ok response comes before the first rejected fetch or within `retries` attempts |
| `Upload.Insert` | b3/static/b3/transfer.js:84 | inserting a part into parts sorted by part number keeps them sorted, and adds exactly that part |
| `Upload.SortParts` | b3/static/b3/transfer.js:84 | the sorted parts are ascending by part number and are a permutation of the input |
| `Upload.FirstPass` | b3/static/b3/transfer.js:36-62 | after the first pass, `failed_chunks` holds exactly the chunks whose retry loop failed, in ascending order; the parts are those of the chunks uploaded; the progress is their byte count; chunk `c` was sent, in index order, to `token[c]` with the bytes of range `c` |
| `Upload.FirstPassChunk` | b3/static/b3/transfer.js:37-54 | one first-pass chunk sends its own slice to its own URL and moves the pass's state on by that chunk |
| `Upload.FirstPassStep` | b3/static/b3/transfer.js:43-50 | one first-pass chunk either appends its part and adds its length to the progress, or appends its index to `failed_chunks` |
| `Upload.FirstPassFailedSpec` | b3/static/b3/transfer.js:48-50 | `failed_chunks` holds exactly the first-pass failures, strictly ascending |
| `Upload.FirstPassDoneSpec` | b3/static/b3/transfer.js:43-47 | the chunks uploaded in the first pass are exactly its successes, strictly ascending |
| `Upload.SecondPass` | b3/static/b3/transfer.js:66-80 | the second pass gives up at the first chunk that fails both passes, with the progress of every chunk uploaded so far; otherwise it holds all `n` parts, once each, with their final ETags, and the progress reaches the file size; it sends `failed_chunks` in order, each to its own URL with its own slice, up to and including the lost chunk |
| `Upload.SecondPassChunk` | b3/static/b3/transfer.js:67-79 | one retried chunk sends its own slice to its own URL; it either moves the pass's state on or is the first lost chunk, with the abort progress |
| `Upload.SecondPassStep` | b3/static/b3/transfer.js:70-78 | a retried chunk that uploads is new and adds its part and length; one that fails again is the first lost chunk |
| `Upload.SecondPassRetried` | b3/static/b3/transfer.js:71-74 | a retried chunk that uploads was not done before: it adds one part and its full length |
| `Upload.RetriedNotDone` | b3/static/b3/transfer.js:66-72 | the chunk retried `j`-th lies within the file, and was neither uploaded in the first pass nor retried earlier |
| `Upload.SecondPassLost` | b3/static/b3/transfer.js:75-78 | the chunk whose second pass fails is the lowest chunk that failed both passes; the progress then counts every first-pass success and every chunk retried before it |
| `Upload.SecondPassComplete` | b3/static/b3/transfer.js:66-80 | when every retried chunk uploads, no chunk is lost, the parts are the `n` chunks once each, and the progress is the file size |
| `Upload.OrderDistinct` | b3/static/b3/transfer.js:43-72 | the chunks the two passes upload lie within the file and are pairwise different |
| `Upload.SortedCanonical` | b3/static/b3/transfer.js:84-95 | sorting the parts of all `n` chunks gives exactly the parts `1..n` in order, each with the ETag of the attempt that uploaded it |
| `Upload.UploadSingleFile` | b3/static/b3/transfer.js:26-104 | a file's upload ends as the specification `Expected` says: aborted at the first lost chunk, or finalized with the sorted parts; every chunk is sent once in order, later requests are only for chunks whose first pass failed, and every request for chunk `c` goes to `token[c]` (`undefined` past the end of the list) with the bytes of range `c` |
| `Upload.BothPassesRequests` | b3/static/b3/transfer.js:37-43 | the two passes' requests together: every chunk in order first, then retried chunks only, each paired with its own URL and range |
| `Upload.ExpectedAborts` | b3/static/b3/transfer.js:75-79 | a file's upload gives up if and only if some chunk fails both passes, and then at the lowest such chunk; finalize is not called |
| `Upload.ExpectedFinalizes` | b3/static/b3/transfer.js:84-99 | a finalized upload names `folder + name` and the server's upload id, and lists parts `1..n` ascending, each with its uploading ETag; the progress is the file size |
| `Upload.ExpectedProgress` | b3/static/b3/transfer.js:47-74 | the progress never exceeds the file size, and reaches it if and only if the upload is finalized |
| `Upload.AbortProgressBound` | b3/static/b3/transfer.js:74-78 | when the upload gives up, the bytes counted stay strictly below the chunks' total once the lost chunk is among them |
| `Upload.SplitUploadPath` | b3/static/b3/transfer.js:13-15 | the bucket is the text before the first `/` and holds none; bucket, `/` and folder give the path back; without a `/` the folder is empty |
| `Upload.UploadAll` | b3/static/b3/transfer.js:17-22 | each element of the server's `result` uploads the file at the same index, under the split path's bucket and folder; an index with no file sends nothing |
| `Upload.StartRequestFor` | b3/static/b3/transfer.js:150-157 | the `startupload` request has the path's first segment as bucket, one `[upload_path + name, size]` per file in order, and the 8 MiB chunk size |
| `Upload.Upload` | b3/static/b3/transfer.js:146-180 | `upload` sends that request; it uploads every file of the answer when the answer is ok, and nothing otherwise |
| `Download.FlatName` | b3/static/b3/transfer.js:188 | the fallback file name has the length of the path and holds no `/` |
| `Download.FlatNameInverse` | b3/static/b3/transfer.js:188 | for a path without `#`, turning `#` back into `/` recovers the path |
| `Download.FlatNameInjective` | b3/static/b3/transfer.js:188 | two different paths without `#` never get the same fallback name |
| `Download.FlatNamesCollide` | b3/static/b3/transfer.js:188 | `a/b` and `a#b` get the same fallback name |
| `Download.FallbackDownload` | b3/static/b3/transfer.js:182-199 | the fallback clicks one link per entry in list order, to the entry's target under its flat name, each followed by a 500 ms sleep |
| `Download.ClicksSpaced` | b3/static/b3/transfer.js:196-197 | in a fallback trace a full 500 ms sleep separates any two clicks |
| `Download.DownloadUrl` | b3/static/b3/transfer.js:292-347 | the buffered read loop hands the blobs to `write()`, closes the writable and sets the progress as the specification `DownloadUrlSpec` says; after every step the buffer holds fewer than `batchSize` bytes or none |
| `Download.PushFrame` | b3/static/b3/transfer.js:317-325 | pushing one frame moves the loop's account on by that frame: what is written so far plus what the rest of the stream will write is unchanged, and so is the final remainder; the buffer is left below `batchSize` or empty |
| `Download.FlushesReassemble` | b3/static/b3/transfer.js:313-338 | the blobs written in the loop, followed by the bytes left in the buffer, are exactly the body's bytes in order |
| `Download.FlushesAtLeastBatch` | b3/static/b3/transfer.js:320-325 | every blob written inside the loop holds at least `batchSize` bytes |
| `Download.RemainderBelowBatch` | b3/static/b3/transfer.js:320-338 | the buffer left when the loop ends holds fewer than `batchSize` bytes |
| `Download.CompletedStreamIsFile` | b3/static/b3/transfer.js:313-340 | a stream that ends normally is written completely: the blobs concatenate to the body, all but the last are full batches, and the last is not empty |
| `Download.FailedStreamLosesBuffer` | b3/static/b3/transfer.js:313-346 | after a failed read the blobs handed to `write()` are a prefix of the body, short of it by less than one batch |
| `Download.DownloadedFileContents` | b3/static/b3/transfer.js:301-346 | the file holds exactly the body after a stream that ended normally, and after a rejected fetch, a missing body or a failed read it holds what it held before, since the writable is never closed then |
| `Download.DownloadUrlProgress` | b3/static/b3/transfer.js:304-332 | the progress ends at the bytes received when `Content-Length` is a non-zero number, and at 0 otherwise; the writable is closed if and only if the stream ended normally; a failed fetch writes nothing |
| `Download.Target` | b3/static/b3/transfer.js:279-280 | the entry's path splits into directories and a file name, none holding `/`, which join back to the path |
| `Download.TargetOfJoin` | b3/static/b3/transfer.js:279-280 | directories and a name without `/`, joined, split back into the same directories and name |
| `Download.DownloadSingleFile` | b3/static/b3/transfer.js:278-289 | the directory handles on the way down, the file handle, the first rejection and the directory afterwards are as the specification `DownloadSingleFileSpec` says |
| `Download.OpenDirsSpec` | b3/static/b3/transfer.js:283-285 | the walk gets exactly as deep as the first directory that rejects, creates only directories on the path, and touches no file |
| `Download.SingleFileSaved` | b3/static/b3/transfer.js:283-288 | an entry is saved exactly when every directory on its path and then its file open, and the saved file gets what `download_url` did |
| `Download.SingleFileLayout` | b3/static/b3/transfer.js:283-288 | each directory opened is one segment deeper than the previous one; all are opened unless one rejects; directory and name rebuild the entry's path |
| `Download.FileBlocksFolder` | b3/static/b3/transfer.js:283-287 | once an entry `top` is saved as a file, an entry `top/name` is rejected at its directory |
| `Download.Download` | b3/static/b3/transfer.js:202-275 | no picker and the user continues: the fallback trace; no picker and the user cancels: nothing; picker aborted or failed: nothing; picker chosen: the entries in order, each through `download_single_file` on the directory the ones before it left |
| `Download.SaveAllEntries` | b3/static/b3/transfer.js:260-273 | the picked-directory mode gives one result per entry, in order, each at the entry's own directory and name, and a saved entry holds what `download_url` did with its own fetch |
| `Drop.ReadDirEntries` | b3/static/b3/transfer.js:426-434 | `readDirEntries` returns the batches read up to the first empty one, concatenated |
| `Drop.ReadAllIsPrefix` | b3/static/b3/transfer.js:429-432 | those are exactly the batches before the first empty batch; nothing after it is read |
| `Drop.EntryFileName` | b3/static/b3/transfer.js:414 | a non-empty `fullPath` names the file without its first character; an empty one keeps the file's name |
| `Drop.UploadDroppedItems` | b3/static/b3/transfer.js:384-409 | the first-in first-out work list produces the files of the specification `Drain` |
| `Drop.DrainFindsAllFiles` | b3/static/b3/transfer.js:395-404 | the work list outputs every file of the dropped trees as often as it occurs there, and nothing else |
| `Drop.DrainFilesInOrder` | b3/static/b3/transfer.js:395-404 | dropped files with no folder among them come out in drop order, one per item |
| `Drop.SelectedName` | b3/static/b3/transfer.js:371 | a picked file is named by its relative path when that is not empty, and by its name otherwise |
| `Drop.UploadSelectedFolder` | b3/static/b3/transfer.js:366-382 | every picked file, in order, with that name and its size |
| `Drop.DropAndPickAgree` | b3/static/b3/transfer.js:414 | a dropped entry at `/p` and a picked file with relative path `p` are uploaded under the same name `p` |
| `Text.LastPiece` | b3/s3.py:163 | `rsplit('/', 1)[-1]` holds no `/`; it is the whole key when the key has no `/`, and otherwise the key ends with `/` followed by it |
| `Text.JoinSplit` | b3/static/b3/transfer.js:13-15 | joining the pieces of a split with the separator gives the string back |
| `S3Paths.ParseJoin` | b3/s3.py:215-224 | `parse_obj_path` of a bucket followed by normal segments gives the bucket, and the segments joined with `/` as key |
| `S3Paths.ParseFails` | b3/s3.py:221-222 | `parse_obj_path` raises if and only if the path has no anchor and only empty or `.` pieces |
| `S3Paths.ParsedKeyShape` | b3/s3.py:221-224 | a parsed key is never empty and never ends with `/` |
| `S3Paths.ListedPath` | b3/s3.py:150 | an object found under folder `f` gets the path made of `f`'s last piece and the object's pieces below `f`, so a download recreates the selected folder |
| `S3.FloorDiv` | b3/s3.py:182 | Python's `//`: the quotient rounded down, for either sign of the divisor |
| `S3.PartCountIsCeiling` | b3/s3.py:182 | for a positive chunk size the part count is the ceiling of size / chunk size |
| `S3.ServerCountIsClientCount` | b3/s3.py:182 | with the browser's 8 MiB chunk size, the server's part count equals the browser's chunk count |
| `S3.GeneratePresignedUrl` | b3/s3.py:109-123 | `UploadId` and `PartNumber` join `Bucket` and `Key` if and only if both are truthy; operation and expiry pass through |
| `S3.PartTargets` | b3/s3.py:183-189 | one `upload_part` target per part `1..total`, in order, valid 3600 s, naming the upload id and the part number |
| `S3.StartOne` | b3/s3.py:179-194 | one file's entry is the specification `StartFile`: a path error, a division by zero, or the targets with the upload id |
| `S3.StartUpload` | b3/s3.py:169-196 | `start_upload` returns one entry per file in order, or raises at the first file that raises |
| `S3.CollectSpec` | b3/s3.py:178-196 | such a run succeeds if and only if every file does, and then holds every file's entry in order; otherwise it fails with the first file's error |
| `S3.StartFileTargets` | b3/s3.py:182-189 | a file accepted with the 8 MiB chunk size gets exactly one target per browser chunk, for parts `1..n` |
| `S3.ClientServerPartCount` | b3/s3.py:182-189 | for the request the browser sends, every file of the answer has one target per browser chunk, and chunk `i`'s target is for part `i + 1` |
| `S3.Calls` | b3/s3.py:84-99 | the listing loop makes between one call and one call more than there are pages |
| `S3.CallsSpec` | b3/s3.py:94-99 | every answer before the last call has a continuation token, and the last has none |
| `S3.GetObjectList` | b3/s3.py:68-107 | the first call has no token and each later call carries the previous answer's token; the result is the accumulated contents, or the prefixes and the files |
| `S3.ReadPages` | b3/s3.py:84-99 | the `while True` loop makes exactly those calls and accumulates every page's `Contents` and `CommonPrefixes` |
| `S3.AllContentsAreCalledPages` | b3/s3.py:86-88 | the accumulated contents are the contents of the answers received, in order |
| `S3.FilesOf` | b3/s3.py:105-106 | no file is named by the prefix itself, and there are no more files than objects |
| `S3.FilesOfSpec` | b3/s3.py:105-106 | an object is in the file list if and only if its key is not the prefix |
| `S3.FilesOfWithoutMarker` | b3/s3.py:105-106 | a listing without the folder marker keeps every object, in order |
| `S3.FolderPathOf` | b3/s3.py:139 | the folder key ends with `/` and is the key, or the key with `/` appended |
| `S3.ListedUrl` | b3/s3.py:144-152 | a listed object yields entries only if its key does not end with `/`, each with a 300-second target for that key |
| `S3.ListedUrls` | b3/s3.py:143-152 | the inner loop gives the entries of the listed objects in order, or the first path error |
| `S3.OneFolderUrls` | b3/s3.py:136-152 | one folder's entries are as `FolderUrls` says |
| `S3.OneFileUrl` | b3/s3.py:155-165 | one file's entry is as `FileUrl` says |
| `S3.GetSignedUrl` | b3/s3.py:125-167 | `get_signed_url` returns the folders' entries then the files' entries, or the first path error |
| `S3.FolderUrlsFromListing` | b3/s3.py:143-147 | every entry a folder adds comes from a listed object not ending with `/`, with a 300-second target |
| `S3.FileEntries` | b3/s3.py:155-165 | the files add one entry each, in order, named by the key's last piece, with a 3000-second target |
| `S3.SignedUrlsOrder` | b3/s3.py:133-167 | every folder-derived entry comes before every file entry, and the file entries are the last ones, one per file |
| `S3.FolderEntryPath` | b3/s3.py:138-152 | a folder `bucket/segs` has key `segs` and folder key `segs/`; an object `segs/rest` gets the path of `segs`' last piece followed by `rest`'s pieces |
| `S3.Qualified` | b3/s3.py:242 | each file becomes `bucket/name`, one per file, in order |
| `S3.OneFolderDeletes` | b3/s3.py:239-242 | one folder's delete entries are as `FolderDeletes` says |
| `S3.PrepareDelete` | b3/s3.py:227-248 | `prepare_delete` returns the folders' objects then `file_list`, or the first path error |
| `S3.FolderDeletesUnder` | b3/s3.py:239-242 | every entry a folder adds names the folder's bucket and an object other than the folder marker |
| `S3.DeleteListEndsWithFiles` | b3/s3.py:242-248 | the delete list ends with `file_list`, unchanged and in order; everything before it comes from the folders |
| `S3.DeleteListFolderEntries` | b3/s3.py:238-242 | every entry before `file_list` comes from one of the selected folders' listings |
| `S3.WithoutBucket` | b3/s3.py:32 | no remaining handle is for the bucket, and none is added |
| `S3.HandleCache.constructor` | b3/s3.py:24 | the cache starts empty |
| `S3.HandleCache.DeleteHandle` | b3/s3.py:27-32 | `delete_handle` replaces the cache by its handles for other buckets |
| `S3.WithoutBucketMembers` | b3/s3.py:32 | a handle stays if and only if it was cached and is for another bucket |
| `S3.WithoutBucketAppend` | b3/s3.py:32 | pruning keeps the remaining handles in order: it distributes over concatenation |
| `S3.WithoutBucketKeeps` | b3/s3.py:32 | a cache with no handle for the bucket is left as it is |
| `S3.WithoutBucketIdempotent` | b3/s3.py:32 | pruning twice is pruning once |

## Left out

- `S3.__init__` is not part of this model. It builds a boto3 client from credentials and adds it to the handle cache. Only `delete_handle`'s pruning of the cache is modelled.
- `get_filesize_str` and the `LastModified` date are not modelled. A file item keeps its size in bytes. The formatting is presentation.
- `complete_upload`, `initiate_delete` and the browser's `finalize_upload` request are not modelled. Finalize's answer is a boolean parameter, and the folder-view refresh is DOM work.
- boto3 calls are oracles. `create_multipart_upload` gives an id per file index, and its side effect is not recorded: an upload created for a file before a later file raises stays open. `list_objects_v2` gives a list of pages. `generate_presigned_url` is represented by the request it signs, without the signature.
- Concurrency is not modelled. Chunks of the first pass, files and downloads run sequentially in index order. In the browser, `uploaded_parts` and `failed_chunks` fill in completion order. The parts are sorted before finalize, so only the second pass's order can differ: the model reports the lowest lost chunk, the browser the first one to have failed.
- The concurrency limits of five (`Promise.race` bookkeeping) are not modelled, for the same reason.
- DOM, alerts, console output and the progress bar's `max` are not modelled. Only the progress bar's value is.
- `Download.Download`: when a handle rejection is the promise that `Promise.race` or `Promise.all` awaits, `download` throws and the entries not yet started are never started. Which rejection that is depends on completion order, which the model does not capture; it lets every entry run, in list order, on the shared directory.
- Handle rejections other than an invalid name or a file and a directory sharing a name are not modelled: quotas, revoked permissions, and names a platform forbids (such as ones holding `\` or `:` on Windows).
- Timers are not run. Sleeps are recorded as their durations.
- `download_url` does not look at the HTTP status, and neither does the model. A response without `ok` is streamed to the file like any other.
- `webkitGetAsEntry` returning `null`, entries that are neither files nor directories, and `readEntries` or `file()` errors are not modelled.
- `uploadDroppedItems` and `uploadSelectedFolder` return the file list they hand to `upload`. `Upload.Upload` models that call separately, because it needs the upload path and the server's answers.
- Sizes are unbounded naturals. JavaScript's double precision matters only above 2^53 bytes, which is not modelled. Below that, `Math.ceil(size / 2^23)` is exact.
