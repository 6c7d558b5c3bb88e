/** The upload side of the browser client: `upload` asks the server to start one multipart upload
    per file, `upload_all` splits the upload path into bucket and folder, and `upload_single_file`
    sends every chunk through the retry loop, gives the chunks that failed a second, serial pass,
    and either gives up or sorts the collected parts and hands them to `finalize_upload`.

    The browser runs the first pass of chunk uploads, and the files, concurrently; here they run
    one after another in index order, each chunk's attempts answered by a network oracle. Progress
    is the running value of the file's progress bar. */
module Upload {
  import opened Results
  import opened Text
  import opened ChunkPlan
  import Retry

  /** A `File` to upload: its name and size in bytes. */
  datatype FileInfo = FileInfo(name: string, size: nat)

  /** One element of `uploaded_parts`: `{PartNumber, ETag}`. */
  datatype Part = Part(partNumber: nat, etag: Option<string>)

  /** One element of the server's `result`: a presigned URL per part and the upload id. */
  datatype UploadDetails = UploadDetails(token: seq<string>, uploadId: string)

  /** The body of the `finishupload` request (`qData` in `upload_single_file`). */
  datatype FinalizeRequest = FinalizeRequest(bucket: string, objectPath: string, uploadId: string, parts: seq<Part>)

  /** How one file's upload ends: finalize was called (and the server answered ok or not), the
      upload gave up when chunk `chunk` failed its second pass, or there was no file at that index. */
  datatype FileOutcome = Finalized(request: FinalizeRequest, accepted: bool) | Aborted(chunk: nat) | NoSuchFile

  /** What one call of `upload_chunk_with_retry` sends for chunk `chunk`, on every attempt: the
      presigned URL `uploadDetails.token[chunk]` (`None` when the list is too short and the call
      gets `undefined`, which `fetch` resolves against the page's own address) and the byte range
      `file.slice` cuts for the chunk. */
  datatype ChunkRequest = ChunkRequest(chunk: nat, url: Option<string>, body: ByteRange)

  /** The request for chunk `c`: the chunk's own URL and range, in both passes alike. */
  function RequestFor(details: UploadDetails, file: FileInfo, c: nat): ChunkRequest
    requires c < ChunkCount(file.size)
  {
    ChunkRequest(c, if c < |details.token| then Some(details.token[c]) else None, ChunkRange(file.size, c))
  }

  /** The network: the response to attempt `a` of chunk `c` in pass `p` (0 first, 1 second). */
  type Network = (nat, nat, nat) -> Retry.Response

  function Attempts(net: Network, pass: nat, chunk: nat): Retry.Attempts
  {
    (a: nat) => net(pass, chunk, a)
  }

  /** What `upload_chunk_with_retry` with `MAX_RETRIES` gives chunk `c` in pass `pass`. */
  function PassOutcome(net: Network, pass: nat, c: nat): Retry.ChunkOutcome
  {
    Retry.Run(Attempts(net, pass, c), Retry.MaxRetries, 0).outcome
  }

  predicate FirstOk(net: Network, c: nat)
  {
    PassOutcome(net, 0, c).Uploaded?
  }

  /** Chunk `c` failed in both passes. */
  predicate Lost(net: Network, c: nat)
  {
    !FirstOk(net, c) && PassOutcome(net, 1, c).Failed?
  }

  /** The ETag finalize receives for chunk `c`: from the pass that uploaded it. */
  function FinalTag(net: Network, c: nat): Option<string>
  {
    if FirstOk(net, c) then PassOutcome(net, 0, c).etag
    else if PassOutcome(net, 1, c).Uploaded? then PassOutcome(net, 1, c).etag
    else None
  }

  /** `failed_chunks` after the first `k` iterations of the first pass. */
  function FirstPassFailed(net: Network, k: nat): seq<nat>
  {
    if k == 0 then []
    else FirstPassFailed(net, k - 1) + (if FirstOk(net, k - 1) then [] else [k - 1])
  }

  /** The first chunk at or after `from` and before `n` that is lost, if any. */
  function FirstLost(net: Network, from: nat, n: nat): Option<nat>
    decreases n - from
  {
    if from >= n then None
    else if Lost(net, from) then Some(from)
    else FirstLost(net, from + 1, n)
  }

  /** The parts `1..n` with the ETag each chunk was uploaded with. */
  function CompleteParts(net: Network, n: nat): seq<Part>
  {
    seq(n, i requires 0 <= i < n => Part(i + 1, FinalTag(net, i)))
  }

  /** The chunks the first pass uploads among the first `k`, in index order. */
  function FirstPassDone(net: Network, k: nat): seq<nat>
  {
    if k == 0 then []
    else FirstPassDone(net, k - 1) + (if FirstOk(net, k - 1) then [k - 1] else [])
  }

  /** The parts recorded for the chunks of `order`, in that order, each with its final ETag. */
  function PartsOf(net: Network, order: seq<nat>): seq<Part>
  {
    seq(|order|, k requires 0 <= k < |order| => Part(order[k] + 1, FinalTag(net, order[k])))
  }

  /** Bytes of the chunks in `order` among the first `k`: the value the progress bar reaches. */
  function DoneProgress(size: nat, order: seq<nat>, k: nat): nat
    requires k <= ChunkCount(size)
  {
    if k == 0 then 0
    else DoneProgress(size, order, k - 1) + (if k - 1 in order then ChunkLength(size, k - 1) else 0)
  }

  /** Bytes uploaded among the first `k` chunks when the second pass gives up at chunk `lost`:
      every first-pass success, and every first-pass failure before `lost` (those were retried
      successfully, in ascending order). */
  function AbortProgress(size: nat, net: Network, lost: nat, k: nat): nat
    requires k <= ChunkCount(size)
  {
    if k == 0 then 0
    else AbortProgress(size, net, lost, k - 1) + (if FirstOk(net, k - 1) || k - 1 < lost then ChunkLength(size, k - 1) else 0)
  }

  /** What `upload_single_file` does with one file: the specification of the method below. */
  function Expected(details: UploadDetails, file: FileInfo, bucket: string, folder: string,
                    net: Network, finalizeOk: bool): (FileOutcome, nat)
  {
    var n := ChunkCount(file.size);
    match FirstLost(net, 0, n)
    case Some(c) => (Aborted(c), AbortProgress(file.size, net, c, n))
    case None =>
      (Finalized(FinalizeRequest(bucket, folder + file.name, details.uploadId, CompleteParts(net, n)), finalizeOk),
       file.size)
  }

  // ---------------------------------------------------------------------------------------------
  // Sorting the parts: `uploaded_parts.sort((a, b) => a.PartNumber - b.PartNumber)`.

  predicate SortedByPart(s: seq<Part>)
  {
    forall i, j :: 0 <= i < j < |s| ==> s[i].partNumber <= s[j].partNumber
  }

  function Insert(x: Part, s: seq<Part>): (r: seq<Part>)
    requires SortedByPart(s)
    ensures SortedByPart(r)
    ensures multiset(r) == multiset(s) + multiset{x}
  {
    if s == [] then [x]
    else if x.partNumber <= s[0].partNumber then [x] + s
    else
      var rest := Insert(x, s[1..]);
      assert s == [s[0]] + s[1..];
      PartsAtLeast(rest, s[1..], x, s[0].partNumber);
      [s[0]] + rest
  }

  /** A rearrangement of parts numbered at least `lo`, plus `x` numbered above `lo`, keeps that bound. */
  lemma PartsAtLeast(r: seq<Part>, s: seq<Part>, x: Part, lo: int)
    requires multiset(r) == multiset(s) + multiset{x}
    requires lo <= x.partNumber && forall k :: 0 <= k < |s| ==> lo <= s[k].partNumber
    ensures forall k :: 0 <= k < |r| ==> lo <= r[k].partNumber
  {
    forall k | 0 <= k < |r| ensures lo <= r[k].partNumber {
      assert r[k] in multiset(r);
      if r[k] != x {
        assert r[k] in multiset(s);
        assert r[k] in s;
      }
    }
  }

  /** Any order of the parts, sorted ascending by part number (the comparator sort of JavaScript;
      which sort is used does not matter once part numbers are distinct). */
  function SortParts(s: seq<Part>): (r: seq<Part>)
    ensures SortedByPart(r)
    ensures multiset(r) == multiset(s)
  {
    if s == [] then []
    else
      assert s == [s[0]] + s[1..];
      Insert(s[0], SortParts(s[1..]))
  }

  // ---------------------------------------------------------------------------------------------
  // `upload_single_file`.

  /** Parts that are each the part of a chunk below `n` with that chunk's final ETag, none twice. */
  ghost predicate CanonicalParts(s: seq<Part>, net: Network, n: nat)
  {
    && (forall k :: 0 <= k < |s| ==>
          1 <= s[k].partNumber <= n && s[k] == Part(s[k].partNumber, FinalTag(net, s[k].partNumber - 1)))
    && (forall x :: multiset(s)[x] <= 1)
  }

  /** The state of the first pass after `i` chunks: `failed_chunks`, the parts collected and the
      progress so far are those of the chunks the retry loop has uploaded or failed. */
  predicate FirstPassState(file: FileInfo, net: Network, i: nat, uploaded: seq<Part>, failed: seq<nat>, progress: nat)
  {
    && i <= ChunkCount(file.size)
    && failed == FirstPassFailed(net, i)
    && uploaded == PartsOf(net, FirstPassDone(net, i))
    && progress == DoneProgress(file.size, FirstPassDone(net, i), ChunkCount(file.size))
  }

  /** The first pass of `upload_single_file`: every chunk in index order through the retry loop;
      a success appends `{PartNumber: index + 1, ETag}` and adds the chunk's length to the progress,
      a failure appends the index to `failed_chunks` and leaves the progress alone. */
  method FirstPass(details: UploadDetails, file: FileInfo, net: Network)
    returns (uploaded: seq<Part>, failed: seq<nat>, progress: nat, sent: seq<ChunkRequest>)
    ensures FirstPassState(file, net, ChunkCount(file.size), uploaded, failed, progress)
    ensures |sent| == ChunkCount(file.size)
    ensures forall c :: 0 <= c < |sent| ==> sent[c] == RequestFor(details, file, c)
  {
    var n := ChunkCount(file.size);
    uploaded, failed, progress, sent := [], [], 0, [];
    ProgressNone(file.size, n);
    var i := 0;
    while i < n
      invariant FirstPassState(file, net, i, uploaded, failed, progress)
      invariant SentInOrder(details, file, i, sent)
    {
      uploaded, failed, progress, sent := FirstPassChunk(details, file, net, i, uploaded, failed, progress, sent);
      i := i + 1;
    }
  }

  /** The requests of the first `i` chunks of the first pass, one per chunk in index order. */
  predicate SentInOrder(details: UploadDetails, file: FileInfo, i: nat, sent: seq<ChunkRequest>)
  {
    && i <= ChunkCount(file.size)
    && |sent| == i
    && forall c :: 0 <= c < i ==> sent[c] == RequestFor(details, file, c)
  }

  /** One iteration of the first pass: chunk `i` sent through the retry loop and recorded. */
  method FirstPassChunk(details: UploadDetails, file: FileInfo, net: Network, i: nat,
                        uploaded: seq<Part>, failed: seq<nat>, progress: nat, sent: seq<ChunkRequest>)
    returns (uploaded': seq<Part>, failed': seq<nat>, progress': nat, sent': seq<ChunkRequest>)
    requires i < ChunkCount(file.size)
    requires FirstPassState(file, net, i, uploaded, failed, progress) && SentInOrder(details, file, i, sent)
    ensures FirstPassState(file, net, i + 1, uploaded', failed', progress') && SentInOrder(details, file, i + 1, sent')
  {
    sent' := sent + [RequestFor(details, file, i)];
    var tag, _, _ := Retry.UploadChunkWithRetry(Attempts(net, 0, i), Retry.MaxRetries);
    FirstPassStep(file, net, i, tag);
    uploaded', failed', progress' := uploaded, failed, progress;
    if tag.Uploaded? {
      uploaded' := uploaded + [Part(i + 1, tag.etag)];
      progress' := progress + ChunkLength(file.size, i);
    } else {
      failed' := failed + [i];
    }
  }

  /** One iteration of the first pass: what it appends to the chunks done and the progress. */
  lemma FirstPassStep(file: FileInfo, net: Network, i: nat, tag: Retry.ChunkOutcome)
    requires i < ChunkCount(file.size) && tag == PassOutcome(net, 0, i)
    ensures var n := ChunkCount(file.size);
      && (tag.Uploaded? ==>
          && FirstPassFailed(net, i + 1) == FirstPassFailed(net, i)
          && PartsOf(net, FirstPassDone(net, i + 1)) == PartsOf(net, FirstPassDone(net, i)) + [Part(i + 1, tag.etag)]
          && DoneProgress(file.size, FirstPassDone(net, i + 1), n)
             == DoneProgress(file.size, FirstPassDone(net, i), n) + ChunkLength(file.size, i))
      && (tag.Failed? ==>
          && FirstPassFailed(net, i + 1) == FirstPassFailed(net, i) + [i]
          && FirstPassDone(net, i + 1) == FirstPassDone(net, i))
  {
    if tag.Uploaded? {
      FirstPassDoneSpec(net, i);
      PartsOfSnoc(net, FirstPassDone(net, i), i);
      ProgressAdd(file.size, FirstPassDone(net, i), i, ChunkCount(file.size));
    }
  }

  /** The state of the second pass after `j` retried chunks, all of them uploaded this time. */
  predicate SecondPassState(file: FileInfo, net: Network, failed: seq<nat>, j: nat, uploaded: seq<Part>, progress: nat)
  {
    var n := ChunkCount(file.size);
    && j <= |failed|
    && failed == FirstPassFailed(net, n)
    && (forall k :: 0 <= k < j ==> !Lost(net, failed[k]))
    && uploaded == PartsOf(net, FirstPassDone(net, n) + failed[..j])
    && progress == DoneProgress(file.size, FirstPassDone(net, n) + failed[..j], n)
  }

  /** The second pass of `upload_single_file`: the chunks in `failed_chunks`, one at a time in the
      order recorded, each through the retry loop again. It stops at the first chunk that fails
      again and reports it as `lost`; nothing after it is retried. Without a lost chunk, the parts
      collected are the `n` parts of the file, once each, with their final ETags. */
  method SecondPass(details: UploadDetails, file: FileInfo, net: Network, uploaded0: seq<Part>, failed: seq<nat>, progress0: nat)
    returns (uploaded: seq<Part>, progress: nat, lost: Option<nat>, sent: seq<ChunkRequest>)
    requires FirstPassState(file, net, ChunkCount(file.size), uploaded0, failed, progress0)
    ensures |sent| <= |failed|
    ensures forall k :: 0 <= k < |sent| ==> failed[k] < ChunkCount(file.size) && sent[k] == RequestFor(details, file, failed[k])
    ensures lost.None? ==> |sent| == |failed|
    ensures lost.Some? ==> |sent| > 0 && lost.value == failed[|sent| - 1]
    ensures lost == FirstLost(net, 0, ChunkCount(file.size))
    ensures lost.Some? ==> progress == AbortProgress(file.size, net, lost.value, ChunkCount(file.size))
    ensures lost.None? ==> |uploaded| == ChunkCount(file.size) && CanonicalParts(uploaded, net, ChunkCount(file.size))
    ensures lost.None? ==> progress == file.size
  {
    var n := ChunkCount(file.size);
    uploaded, progress, sent := uploaded0, progress0, [];
    assert failed[..0] == [];
    assert FirstPassDone(net, n) + failed[..0] == FirstPassDone(net, n);
    var j := 0;
    while j < |failed|
      invariant SecondPassState(file, net, failed, j, uploaded, progress)
      invariant SentRetried(details, file, failed, j, sent)
    {
      var ok;
      uploaded, progress, sent, ok := SecondPassChunk(details, file, net, failed, j, uploaded, progress, sent);
      if !ok {
        return uploaded, progress, Some(failed[j]), sent;
      }
      j := j + 1;
    }
    SecondPassComplete(file, net, failed);
    lost := None;
  }

  /** The requests of the first `j` chunks of the second pass, one per retried chunk in the order
      of `failed_chunks`. */
  predicate SentRetried(details: UploadDetails, file: FileInfo, failed: seq<nat>, j: nat, sent: seq<ChunkRequest>)
  {
    && j <= |failed|
    && |sent| == j
    && forall k :: 0 <= k < j ==> failed[k] < ChunkCount(file.size) && sent[k] == RequestFor(details, file, failed[k])
  }

  /** One iteration of the second pass: chunk `failed[j]` sent through the retry loop again; `ok`
      says whether it was uploaded this time, and otherwise it is the first lost chunk. */
  method SecondPassChunk(details: UploadDetails, file: FileInfo, net: Network, failed: seq<nat>, j: nat,
                         uploaded: seq<Part>, progress: nat, sent: seq<ChunkRequest>)
    returns (uploaded': seq<Part>, progress': nat, sent': seq<ChunkRequest>, ok: bool)
    requires j < |failed|
    requires SecondPassState(file, net, failed, j, uploaded, progress) && SentRetried(details, file, failed, j, sent)
    ensures SentRetried(details, file, failed, j + 1, sent')
    ensures ok ==> SecondPassState(file, net, failed, j + 1, uploaded', progress')
    ensures !ok ==> FirstLost(net, 0, ChunkCount(file.size)) == Some(failed[j])
                    && progress' == AbortProgress(file.size, net, failed[j], ChunkCount(file.size))
  {
    var c := failed[j];
    SecondPassStep(file, net, failed, j, PassOutcome(net, 1, c));
    sent' := sent + [RequestFor(details, file, c)];
    var tag, _, _ := Retry.UploadChunkWithRetry(Attempts(net, 1, c), Retry.MaxRetries);
    uploaded', progress' := uploaded, progress;
    ok := tag.Uploaded?;
    if ok {
      uploaded' := uploaded + [Part(c + 1, tag.etag)];
      progress' := progress + ChunkLength(file.size, c);
    }
  }

  /** One iteration of the second pass: a retried chunk is appended to the chunks done, and a
      chunk that fails again is the first lost chunk, with the progress of `AbortProgress`. */
  lemma SecondPassStep(file: FileInfo, net: Network, failed: seq<nat>, j: nat, tag: Retry.ChunkOutcome)
    requires failed == FirstPassFailed(net, ChunkCount(file.size))
    requires j < |failed| && tag == PassOutcome(net, 1, failed[j])
    requires forall k :: 0 <= k < j ==> !Lost(net, failed[k])
    ensures var n := ChunkCount(file.size); var c := failed[j]; var order := FirstPassDone(net, n) + failed[..j];
      && c < n
      && (tag.Uploaded? ==>
          && !Lost(net, c)
          && FirstPassDone(net, n) + failed[..j + 1] == order + [c]
          && PartsOf(net, order + [c]) == PartsOf(net, order) + [Part(c + 1, tag.etag)]
          && DoneProgress(file.size, order + [c], n) == DoneProgress(file.size, order, n) + ChunkLength(file.size, c))
      && (tag.Failed? ==>
          && FirstLost(net, 0, n) == Some(c)
          && DoneProgress(file.size, order, n) == AbortProgress(file.size, net, c, n))
  {
    var n := ChunkCount(file.size);
    FirstPassFailedSpec(net, n);
    assert failed[j] in failed;
    if tag.Uploaded? {
      SecondPassRetried(file, net, failed, j);
    } else {
      SecondPassLost(file, net, failed, j);
    }
  }

  /** A retried chunk that is uploaded was not done before. */
  lemma SecondPassRetried(file: FileInfo, net: Network, failed: seq<nat>, j: nat)
    requires failed == FirstPassFailed(net, ChunkCount(file.size)) && j < |failed|
    ensures var n := ChunkCount(file.size); var c := failed[j]; var order := FirstPassDone(net, n) + failed[..j];
      && c < n
      && FirstPassDone(net, n) + failed[..j + 1] == order + [c]
      && PartsOf(net, order + [c]) == PartsOf(net, order) + [Part(c + 1, FinalTag(net, c))]
      && DoneProgress(file.size, order + [c], n) == DoneProgress(file.size, order, n) + ChunkLength(file.size, c)
  {
    var n := ChunkCount(file.size);
    var c := failed[j];
    var order := FirstPassDone(net, n) + failed[..j];
    RetriedNotDone(net, n, failed, j);
    assert failed[..j + 1] == failed[..j] + [c];
    PartsOfSnoc(net, order, c);
    ProgressAdd(file.size, order, c, n);
  }

  /** The chunk retried `j`-th is below `n` and not among the chunks done before it. */
  lemma RetriedNotDone(net: Network, n: nat, failed: seq<nat>, j: nat)
    requires failed == FirstPassFailed(net, n) && j < |failed|
    ensures failed[j] < n && failed[j] !in FirstPassDone(net, n) + failed[..j]
  {
    var c := failed[j];
    FirstPassFailedSpec(net, n);
    FirstPassDoneSpec(net, n);
    assert c in failed;
    forall k | 0 <= k < j ensures failed[..j][k] != c {
      assert failed[k] < failed[j];
    }
  }

  /** A retried chunk that fails again is the first lost chunk. */
  lemma SecondPassLost(file: FileInfo, net: Network, failed: seq<nat>, j: nat)
    requires failed == FirstPassFailed(net, ChunkCount(file.size))
    requires j < |failed| && PassOutcome(net, 1, failed[j]).Failed?
    requires forall k :: 0 <= k < j ==> !Lost(net, failed[k])
    ensures var n := ChunkCount(file.size); var c := failed[j];
      && FirstLost(net, 0, n) == Some(c)
      && DoneProgress(file.size, FirstPassDone(net, n) + failed[..j], n) == AbortProgress(file.size, net, c, n)
  {
    var n := ChunkCount(file.size);
    FirstPassFailedSpec(net, n);
    FirstLostAt(net, n, failed, j);
    OrderAtAbort(net, n, failed, j);
    ProgressAtAbort(file.size, net, FirstPassDone(net, n) + failed[..j], failed[j], n);
  }

  /** A second pass that retries every failed chunk successfully loses nothing; the chunks done are
      then all `n`, each once, so the parts are canonical and the progress is the file size. */
  lemma SecondPassComplete(file: FileInfo, net: Network, failed: seq<nat>)
    requires failed == FirstPassFailed(net, ChunkCount(file.size))
    requires forall k :: 0 <= k < |failed| ==> !Lost(net, failed[k])
    ensures var n := ChunkCount(file.size); var order := FirstPassDone(net, n) + failed[..|failed|];
      && FirstLost(net, 0, n) == None
      && |PartsOf(net, order)| == n
      && CanonicalParts(PartsOf(net, order), net, n)
      && DoneProgress(file.size, order, n) == file.size
  {
    var n := ChunkCount(file.size);
    FirstPassFailedSpec(net, n);
    FirstPassDoneSpec(net, n);
    FirstPassLengths(net, n);
    assert failed[..|failed|] == failed;
    var order := FirstPassDone(net, n) + failed;
    NoneLost(net, n, failed);
    forall c: nat | c < n ensures c in order {
      if !FirstOk(net, c) {
        assert c in failed;
      }
    }
    ProgressBound(file.size, order, n);
    SumLengthsCovers(file.size, n);
    OrderDistinct(net, n, failed);
    PartsOfCanonical(net, order, n);
  }

  /** `upload_single_file`: the two passes, then either giving up or sorting the parts and
      calling finalize, exactly as `Expected` says. Every chunk is sent once in the first pass, in
      order, and the second pass sends only chunks whose first pass failed; every request for
      chunk `c` goes to `token[c]` with the bytes of range `c`, so part `c + 1` in the finalize
      list names those bytes. */
  method UploadSingleFile(details: UploadDetails, file: FileInfo, bucket: string, folder: string,
                          net: Network, finalizeOk: bool)
    returns (outcome: FileOutcome, progress: nat, sent: seq<ChunkRequest>)
    ensures (outcome, progress) == Expected(details, file, bucket, folder, net, finalizeOk)
    ensures |sent| >= ChunkCount(file.size)
    ensures forall k :: 0 <= k < ChunkCount(file.size) ==> sent[k] == RequestFor(details, file, k)
    ensures forall k :: ChunkCount(file.size) <= k < |sent| ==>
      sent[k].chunk < ChunkCount(file.size) && !FirstOk(net, sent[k].chunk)
      && sent[k] == RequestFor(details, file, sent[k].chunk)
  {
    var n := ChunkCount(file.size);
    var uploaded, failed, progress1, sent1 := FirstPass(details, file, net);
    var parts, progress2, lost, sent2 := SecondPass(details, file, net, uploaded, failed, progress1);
    sent := sent1 + sent2;
    BothPassesRequests(details, file, net, failed, sent1, sent2);
    progress := progress2;
    if lost.Some? {
      return Aborted(lost.value), progress, sent;
    }
    var sorted := SortParts(parts);
    SortedCanonical(parts, sorted, net, n);
    outcome := Finalized(FinalizeRequest(bucket, folder + file.name, details.uploadId, sorted), finalizeOk);
  }

  /** The requests of both passes: every chunk once in order, then retried chunks only, each
      request going to its own chunk's URL with its own chunk's bytes. */
  lemma BothPassesRequests(details: UploadDetails, file: FileInfo, net: Network, failed: seq<nat>,
                           sent1: seq<ChunkRequest>, sent2: seq<ChunkRequest>)
    requires failed == FirstPassFailed(net, ChunkCount(file.size))
    requires |sent1| == ChunkCount(file.size)
    requires forall c :: 0 <= c < |sent1| ==> sent1[c] == RequestFor(details, file, c)
    requires |sent2| <= |failed|
    requires forall k :: 0 <= k < |sent2| ==> failed[k] < ChunkCount(file.size) && sent2[k] == RequestFor(details, file, failed[k])
    ensures var n := ChunkCount(file.size); var sent := sent1 + sent2;
      && (forall k :: 0 <= k < n ==> sent[k] == RequestFor(details, file, k))
      && (forall k :: n <= k < |sent| ==>
            sent[k].chunk < n && !FirstOk(net, sent[k].chunk) && sent[k] == RequestFor(details, file, sent[k].chunk))
  {
    var n := ChunkCount(file.size);
    var sent := sent1 + sent2;
    FirstPassFailedSpec(net, n);
    forall k | n <= k < |sent|
      ensures sent[k].chunk < n && !FirstOk(net, sent[k].chunk) && sent[k] == RequestFor(details, file, sent[k].chunk)
    {
      assert sent[k] == sent2[k - n];
      assert failed[k - n] in failed;
    }
  }

  // ---------------------------------------------------------------------------------------------
  // What `upload_single_file` promises.

  /** A file's upload gives up exactly when some chunk fails both passes, and then at the first
      such chunk. */
  lemma ExpectedAborts(details: UploadDetails, file: FileInfo, bucket: string, folder: string,
                       net: Network, finalizeOk: bool)
    ensures var outcome := Expected(details, file, bucket, folder, net, finalizeOk).0;
      && (outcome.Aborted? <==> exists c :: 0 <= c < ChunkCount(file.size) && Lost(net, c))
      && (outcome.Aborted? ==>
            outcome.chunk < ChunkCount(file.size) && Lost(net, outcome.chunk)
            && forall c :: 0 <= c < outcome.chunk ==> !Lost(net, c))
  {
    FirstLostNone(net, 0, ChunkCount(file.size));
  }

  /** When a file's upload is finalized, the request names the object `folder + name` under the
      upload id the server gave, and lists the parts `1..n` in ascending order, one per chunk, each
      with the ETag of the attempt that uploaded it; the progress bar then reaches the file size. */
  lemma ExpectedFinalizes(details: UploadDetails, file: FileInfo, bucket: string, folder: string,
                          net: Network, finalizeOk: bool)
    ensures var (outcome, progress) := Expected(details, file, bucket, folder, net, finalizeOk);
      outcome.Finalized? ==>
        && outcome.request.bucket == bucket
        && outcome.request.objectPath == folder + file.name
        && outcome.request.uploadId == details.uploadId
        && outcome.accepted == finalizeOk
        && |outcome.request.parts| == ChunkCount(file.size)
        && (forall k :: 0 <= k < |outcome.request.parts| ==>
              outcome.request.parts[k].partNumber == k + 1
              && outcome.request.parts[k].etag == FinalTag(net, k))
        && (forall i, j :: 0 <= i < j < |outcome.request.parts| ==>
              outcome.request.parts[i].partNumber < outcome.request.parts[j].partNumber)
        && progress == file.size
  {
  }

  /** The progress bar never passes the file size, and reaches it exactly when the upload is
      finalized: a lost chunk's bytes are never counted. */
  lemma ExpectedProgress(details: UploadDetails, file: FileInfo, bucket: string, folder: string,
                         net: Network, finalizeOk: bool)
    ensures var (outcome, progress) := Expected(details, file, bucket, folder, net, finalizeOk);
      && progress <= file.size
      && (progress == file.size <==> outcome.Finalized?)
  {
    var n := ChunkCount(file.size);
    FirstLostNone(net, 0, n);
    SumLengthsCovers(file.size, n);
    match FirstLost(net, 0, n)
    case Some(c) =>
      AbortProgressBound(file.size, net, c, n);
    case None =>
  }

  /** The bytes counted when giving up at a lost chunk stay below the length of the chunks, and
      strictly below once the lost chunk is among them. */
  lemma {:induction false} AbortProgressBound(size: nat, net: Network, lost: nat, k: nat)
    requires k <= ChunkCount(size)
    requires !FirstOk(net, lost)
    ensures AbortProgress(size, net, lost, k) <= SumLengths(size, k)
    ensures lost < k ==> AbortProgress(size, net, lost, k) < SumLengths(size, k)
  {
    if k > 0 {
      AbortProgressBound(size, net, lost, k - 1);
    }
  }

  // ---------------------------------------------------------------------------------------------
  // `upload_all` and `upload`.

  /** `upload_all`'s split of the upload path: the bucket is the text before the first `/`, the
      folder everything after it (`""` when there is no `/`). */
  function SplitUploadPath(path: string): (r: (string, string))
    ensures '/' !in r.0
    ensures '/' in path ==> r.0 + "/" + r.1 == path
    ensures '/' !in path ==> r.0 == path && r.1 == ""
  {
    var parts := Split(path, '/');
    SplitSingle(path, '/');
    SplitPiecesAreFree(path, '/');
    JoinSplit(path, '/');
    if |parts| == 1 then (parts[0], "")
    else
      assert parts == [parts[0]] + parts[1..];
      (parts[0], Join(parts[1..], '/'))
  }

  /** `upload_all`: one `upload_single_file` per element of the server's `result`, each with the
      file at the same index. An index past the end of `files` has no file: `file.size` of
      `undefined` throws, and that promise fails without sending anything. Each file gets its own
      network and its own answer to finalize. The browser runs the files concurrently; here they
      run in index order, which does not change any file's outcome because files share no state. */
  method UploadAll(result: seq<UploadDetails>, files: seq<FileInfo>, uploadPath: string,
                   nets: nat -> Network, finalizeOks: nat -> bool)
    returns (outcomes: seq<(FileOutcome, nat)>)
    ensures |outcomes| == |result|
    ensures forall i :: 0 <= i < |result| ==>
      outcomes[i] == if i < |files|
                     then Expected(result[i], files[i], SplitUploadPath(uploadPath).0, SplitUploadPath(uploadPath).1,
                                   nets(i), finalizeOks(i))
                     else (NoSuchFile, 0)
  {
    var (bucket, folder) := SplitUploadPath(uploadPath);
    outcomes := [];
    for i := 0 to |result|
      invariant |outcomes| == i
      invariant forall k :: 0 <= k < i ==>
        outcomes[k] == if k < |files| then Expected(result[k], files[k], bucket, folder, nets(k), finalizeOks(k))
                       else (NoSuchFile, 0)
    {
      if i < |files| {
        var outcome, progress, _ := UploadSingleFile(result[i], files[i], bucket, folder, nets(i), finalizeOks(i));
        outcomes := outcomes + [(outcome, progress)];
      } else {
        outcomes := outcomes + [(NoSuchFile, 0)];
      }
    }
  }

  /** The body of the `startupload` request: the bucket (the upload path's text before the first
      `/`), one `[upload_path + name, size]` entry per file, and the chunk size. */
  datatype StartRequest = StartRequest(bucket: string, fileList: seq<(string, nat)>, chunkSize: nat)

  /** The answer to `startupload`: ok with the server's `result`, a response without `ok`, or a
      rejected fetch. */
  datatype StartResponse = StartOk(result: seq<UploadDetails>) | StartNotOk | StartNetworkError

  /** The `startupload` request `upload` sends for `files` dropped on `uploadPath`. */
  function StartRequestFor(files: seq<FileInfo>, uploadPath: string): (req: StartRequest)
    ensures req.chunkSize == ChunkSize
    ensures req.bucket == SplitUploadPath(uploadPath).0
    ensures |req.fileList| == |files|
    ensures forall i :: 0 <= i < |files| ==> req.fileList[i] == (uploadPath + files[i].name, files[i].size)
  {
    StartRequest(Split(uploadPath, '/')[0],
                 seq(|files|, i requires 0 <= i < |files| => (uploadPath + files[i].name, files[i].size)),
                 ChunkSize)
  }

  /** `upload`: sends the `startupload` request and, when the server answers ok, uploads every
      file of its `result`; otherwise nothing is uploaded. */
  method Upload(files: seq<FileInfo>, uploadPath: string, start: StartResponse,
                nets: nat -> Network, finalizeOks: nat -> bool)
    returns (request: StartRequest, outcomes: seq<(FileOutcome, nat)>)
    ensures request == StartRequestFor(files, uploadPath)
    ensures !start.StartOk? ==> outcomes == []
    ensures start.StartOk? ==> |outcomes| == |start.result|
    ensures start.StartOk? ==> forall i :: 0 <= i < |start.result| ==>
      outcomes[i] == if i < |files|
                     then Expected(start.result[i], files[i], SplitUploadPath(uploadPath).0, SplitUploadPath(uploadPath).1,
                                   nets(i), finalizeOks(i))
                     else (NoSuchFile, 0)
  {
    request := StartRequestFor(files, uploadPath);
    if start.StartOk? {
      outcomes := UploadAll(start.result, files, uploadPath, nets, finalizeOks);
    } else {
      outcomes := [];
    }
  }

  // ---------------------------------------------------------------------------------------------
  // Lemmas used by the methods.

  /** `failed_chunks` holds exactly the first-pass failures among the first `k` chunks, ascending. */
  lemma {:induction false} FirstPassFailedSpec(net: Network, k: nat)
    ensures forall c: nat :: c in FirstPassFailed(net, k) <==> c < k && !FirstOk(net, c)
    ensures forall a, b :: 0 <= a < b < |FirstPassFailed(net, k)| ==> FirstPassFailed(net, k)[a] < FirstPassFailed(net, k)[b]
  {
    if k > 0 {
      FirstPassFailedSpec(net, k - 1);
      var prev := FirstPassFailed(net, k - 1);
      assert forall a :: 0 <= a < |prev| ==> prev[a] < k - 1 by {
        forall a | 0 <= a < |prev| ensures prev[a] < k - 1 {
          assert prev[a] in prev;
        }
      }
    }
  }

  /** When the second pass gives up at `failed[j]`, that chunk is the first lost one. */
  lemma FirstLostAt(net: Network, n: nat, failed: seq<nat>, j: nat)
    requires failed == FirstPassFailed(net, n)
    requires forall c: nat :: c in failed <==> c < n && !FirstOk(net, c)
    requires forall a, b :: 0 <= a < b < |failed| ==> failed[a] < failed[b]
    requires j < |failed| && PassOutcome(net, 1, failed[j]).Failed?
    requires forall k :: 0 <= k < j ==> !Lost(net, failed[k])
    ensures FirstLost(net, 0, n) == Some(failed[j])
  {
    var c := failed[j];
    assert Lost(net, c);
    forall x | 0 <= x < c ensures !Lost(net, x) {
      if !FirstOk(net, x) {
        var k :| 0 <= k < |failed| && failed[k] == x;
      }
    }
    FirstLostFrom(net, 0, n, c);
  }

  /** `FirstLost` from `from` finds `c` when `c` is lost and nothing in `[from, c)` is. */
  lemma {:induction false} FirstLostFrom(net: Network, from: nat, n: nat, c: nat)
    requires from <= c < n && Lost(net, c)
    requires forall x :: from <= x < c ==> !Lost(net, x)
    ensures FirstLost(net, from, n) == Some(c)
    decreases c - from
  {
    if from < c {
      FirstLostFrom(net, from + 1, n, c);
    }
  }

  /** `FirstLost` finds nothing when nothing is lost, and finds something lost otherwise. */
  lemma {:induction false} FirstLostNone(net: Network, from: nat, n: nat)
    ensures FirstLost(net, from, n).None? <==> forall x :: from <= x < n ==> !Lost(net, x)
    ensures FirstLost(net, from, n).Some? ==>
      from <= FirstLost(net, from, n).value < n && Lost(net, FirstLost(net, from, n).value)
      && forall x :: from <= x < FirstLost(net, from, n).value ==> !Lost(net, x)
    decreases n - from
  {
    if from < n && !Lost(net, from) {
      FirstLostNone(net, from + 1, n);
    }
  }

  /** If the second pass retries every failed chunk successfully, no chunk is lost. */
  lemma NoneLost(net: Network, n: nat, failed: seq<nat>)
    requires forall c: nat :: c in failed <==> c < n && !FirstOk(net, c)
    requires forall k :: 0 <= k < |failed| ==> !Lost(net, failed[k])
    ensures FirstLost(net, 0, n) == None
  {
    forall x | 0 <= x < n ensures !Lost(net, x) {
      if !FirstOk(net, x) {
        var k :| 0 <= k < |failed| && failed[k] == x;
      }
    }
    FirstLostNone(net, 0, n);
  }

  /** The first pass uploads exactly the first-pass successes among the first `k` chunks, ascending. */
  lemma {:induction false} FirstPassDoneSpec(net: Network, k: nat)
    ensures forall c: nat :: c in FirstPassDone(net, k) <==> c < k && FirstOk(net, c)
    ensures forall a, b :: 0 <= a < b < |FirstPassDone(net, k)| ==> FirstPassDone(net, k)[a] < FirstPassDone(net, k)[b]
  {
    if k > 0 {
      FirstPassDoneSpec(net, k - 1);
      var prev := FirstPassDone(net, k - 1);
      assert forall a :: 0 <= a < |prev| ==> prev[a] < k - 1 by {
        forall a | 0 <= a < |prev| ensures prev[a] < k - 1 {
          assert prev[a] in prev;
        }
      }
    }
  }

  /** Every one of the first `k` chunks is either uploaded or recorded as failed by the first pass. */
  lemma {:induction false} FirstPassLengths(net: Network, k: nat)
    ensures |FirstPassDone(net, k)| + |FirstPassFailed(net, k)| == k
  {
    if k > 0 {
      FirstPassLengths(net, k - 1);
    }
  }

  /** The chunks done when the second pass gives up at `failed[j]`: the first-pass successes and
      the first-pass failures before `failed[j]`. */
  lemma OrderAtAbort(net: Network, n: nat, failed: seq<nat>, j: nat)
    requires failed == FirstPassFailed(net, n) && j < |failed|
    ensures forall c: nat :: c < n ==>
      (c in FirstPassDone(net, n) + failed[..j] <==> FirstOk(net, c) || c < failed[j])
  {
    FirstPassFailedSpec(net, n);
    FirstPassDoneSpec(net, n);
    forall c: nat | c < n
      ensures c in FirstPassDone(net, n) + failed[..j] <==> FirstOk(net, c) || c < failed[j]
    {
      if c in failed[..j] {
        var k :| 0 <= k < j && failed[k] == c;
      }
      if !FirstOk(net, c) && c < failed[j] {
        assert c in failed;
        var k :| 0 <= k < |failed| && failed[k] == c;
        if k >= j {
          assert false;
        }
        assert c in failed[..j];
      }
    }
  }

  /** The chunks the two passes upload, in upload order, are below `n` and pairwise different. */
  lemma OrderDistinct(net: Network, n: nat, failed: seq<nat>)
    requires failed == FirstPassFailed(net, n)
    ensures var order := FirstPassDone(net, n) + failed;
      && (forall k :: 0 <= k < |order| ==> order[k] < n)
      && (forall a, b :: 0 <= a < b < |order| ==> order[a] != order[b])
  {
    FirstPassFailedSpec(net, n);
    FirstPassDoneSpec(net, n);
    var done := FirstPassDone(net, n);
    var order := done + failed;
    forall k | 0 <= k < |order| ensures order[k] < n {
      if k < |done| {
        assert order[k] in done;
      } else {
        assert order[k] in failed;
      }
    }
    forall a, b | 0 <= a < b < |order| ensures order[a] != order[b] {
      if b < |done| {
        assert order[a] == done[a] && order[b] == done[b];
      } else if |done| <= a {
        assert order[a] == failed[a - |done|] && order[b] == failed[b - |done|];
      } else {
        assert order[a] in done && order[b] in failed;
      }
    }
  }

  /** The parts of chunks below `n`, none repeated, are canonical. */
  lemma PartsOfCanonical(net: Network, order: seq<nat>, n: nat)
    requires forall k :: 0 <= k < |order| ==> order[k] < n
    requires forall a, b :: 0 <= a < b < |order| ==> order[a] != order[b]
    ensures CanonicalParts(PartsOf(net, order), net, n)
  {
    DistinctCounts(PartsOf(net, order));
  }

  /** Parts with pairwise different part numbers occur once each. */
  lemma {:induction false} DistinctCounts(s: seq<Part>)
    requires forall a, b :: 0 <= a < b < |s| ==> s[a].partNumber != s[b].partNumber
    ensures forall x :: multiset(s)[x] <= 1
  {
    if s != [] {
      var m := |s| - 1;
      DistinctCounts(s[..m]);
      assert s == s[..m] + [s[m]];
      assert s[m] !in s[..m];
    }
  }

  /** Recording the part of one more chunk. */
  lemma PartsOfSnoc(net: Network, order: seq<nat>, c: nat)
    ensures PartsOf(net, order + [c]) == PartsOf(net, order) + [Part(c + 1, FinalTag(net, c))]
  {
    assert forall k :: 0 <= k < |order| ==> (order + [c])[k] == order[k];
  }

  /** Adding a chunk not yet counted adds its length to the progress. */
  lemma {:induction false} ProgressAdd(size: nat, order: seq<nat>, c: nat, k: nat)
    requires k <= ChunkCount(size) && c < ChunkCount(size) && c !in order
    ensures DoneProgress(size, order + [c], k) == DoneProgress(size, order, k) + (if c < k then ChunkLength(size, c) else 0)
  {
    if k > 0 {
      ProgressAdd(size, order, c, k - 1);
    }
  }

  /** Nothing done, no progress. */
  lemma {:induction false} ProgressNone(size: nat, k: nat)
    requires k <= ChunkCount(size)
    ensures DoneProgress(size, [], k) == 0
  {
    if k > 0 {
      ProgressNone(size, k - 1);
    }
  }

  /** The progress of the chunks done, when they are those `AbortProgress` counts. */
  lemma {:induction false} ProgressAtAbort(size: nat, net: Network, order: seq<nat>, lost: nat, k: nat)
    requires k <= ChunkCount(size)
    requires forall c: nat :: c < k ==> (c in order <==> FirstOk(net, c) || c < lost)
    ensures DoneProgress(size, order, k) == AbortProgress(size, net, lost, k)
  {
    if k > 0 {
      ProgressAtAbort(size, net, order, lost, k - 1);
    }
  }

  /** The progress of the chunks done is at most the length of the first `k` chunks, and equal to
      it exactly when all of them are done. */
  lemma {:induction false} ProgressBound(size: nat, order: seq<nat>, k: nat)
    requires k <= ChunkCount(size)
    ensures DoneProgress(size, order, k) <= SumLengths(size, k)
    ensures DoneProgress(size, order, k) == SumLengths(size, k) <==> forall c: nat :: c < k ==> c in order
  {
    if k > 0 {
      ProgressBound(size, order, k - 1);
    }
  }

  /** Two positions holding the same part make it occur twice. */
  lemma TwiceInMultiset(s: seq<Part>, a: nat, b: nat)
    requires a < b < |s| && s[a] == s[b]
    ensures multiset(s)[s[a]] >= 2
  {
    assert s == s[..a] + [s[a]] + s[a + 1..b] + [s[b]] + s[b + 1..];
  }

  /** A strictly increasing sequence of `n` part numbers within `1..n` is `1, 2, ..., n`. */
  lemma {:induction false} StrictlyIncreasingIsIota(s: seq<Part>, n: nat)
    requires |s| == n
    requires forall k :: 0 <= k < n ==> 1 <= s[k].partNumber <= n
    requires forall k :: 0 <= k < n - 1 ==> s[k].partNumber < s[k + 1].partNumber
    ensures forall k :: 0 <= k < n ==> s[k].partNumber == k + 1
  {
    forall k | 0 <= k < n ensures s[k].partNumber >= k + 1 {
      AtLeastIndex(s, k);
    }
    forall k | 0 <= k < n ensures s[k].partNumber <= k + 1 {
      AtMostFromEnd(s, n, k);
    }
  }

  lemma {:induction false} AtLeastIndex(s: seq<Part>, k: nat)
    requires k < |s|
    requires forall i :: 0 <= i < |s| ==> 1 <= s[i].partNumber
    requires forall i :: 0 <= i < |s| - 1 ==> s[i].partNumber < s[i + 1].partNumber
    ensures s[k].partNumber >= k + 1
  {
    if k > 0 {
      AtLeastIndex(s, k - 1);
    }
  }

  lemma {:induction false} AtMostFromEnd(s: seq<Part>, n: nat, k: nat)
    requires k < |s| == n
    requires forall i :: 0 <= i < |s| ==> s[i].partNumber <= n
    requires forall i :: 0 <= i < |s| - 1 ==> s[i].partNumber < s[i + 1].partNumber
    ensures s[k].partNumber <= k + 1
    decreases n - k
  {
    if k < n - 1 {
      AtMostFromEnd(s, n, k + 1);
    }
  }


  /** A sorted sequence of canonical parts without repetition has strictly increasing part numbers. */
  lemma SortedDistinct(sorted: seq<Part>, net: Network)
    requires SortedByPart(sorted)
    requires forall x :: multiset(sorted)[x] <= 1
    requires forall k :: 0 <= k < |sorted| ==>
      1 <= sorted[k].partNumber && sorted[k] == Part(sorted[k].partNumber, FinalTag(net, sorted[k].partNumber - 1))
    ensures forall k :: 0 <= k < |sorted| - 1 ==> sorted[k].partNumber < sorted[k + 1].partNumber
  {
    forall k | 0 <= k < |sorted| - 1 ensures sorted[k].partNumber < sorted[k + 1].partNumber {
      if sorted[k].partNumber == sorted[k + 1].partNumber {
        TwiceInMultiset(sorted, k, k + 1);
      }
    }
  }

  /** The elements of a permutation of canonical parts are canonical parts. */
  lemma PermutationCanonical(parts: seq<Part>, sorted: seq<Part>, net: Network, n: nat)
    requires CanonicalParts(parts, net, n)
    requires multiset(sorted) == multiset(parts)
    ensures |sorted| == |parts|
    ensures CanonicalParts(sorted, net, n)
  {
    assert |sorted| == |parts| by {
      assert |multiset(sorted)| == |multiset(parts)|;
    }
    forall k | 0 <= k < |sorted|
      ensures 1 <= sorted[k].partNumber <= n && sorted[k] == Part(sorted[k].partNumber, FinalTag(net, sorted[k].partNumber - 1))
    {
      assert sorted[k] in multiset(parts);
      var i :| 0 <= i < |parts| && parts[i] == sorted[k];
    }
  }

  /** Sorting the canonical parts of all `n` chunks gives exactly the parts `1..n` in order. */
  lemma SortedCanonical(parts: seq<Part>, sorted: seq<Part>, net: Network, n: nat)
    requires |parts| == n && CanonicalParts(parts, net, n)
    requires SortedByPart(sorted) && multiset(sorted) == multiset(parts)
    ensures sorted == CompleteParts(net, n)
  {
    PermutationCanonical(parts, sorted, net, n);
    SortedDistinct(sorted, net);
    StrictlyIncreasingIsIota(sorted, n);
  }
}
