/** The server's `S3` class: the part count and the part targets `start_upload` mints, the
    parameters of a presigned request, the paginated listing of `get_object_list`, the download list
    of `get_signed_url`, the delete list of `prepare_delete`, and the handle cache `delete_handle`
    prunes. The boto3 client is an oracle: a presigned URL is the request it signs, a new multipart
    upload's id comes from a function of the call's index, and a listing is the sequence of pages
    the service answers with. */
module S3 {
  import opened Results
  import opened Text
  import opened S3Paths
  import ChunkPlan
  import Upload

  // ---------------------------------------------------------------------------------------------
  // Arithmetic.

  /** Python's `a // b`: the quotient rounded down, for either sign of `b`. */
  function FloorDiv(a: int, b: int): (q: int)
    requires b != 0
    ensures b > 0 ==> q * b <= a < q * b + b
    ensures b < 0 ==> q * b >= a > q * b + b
  {
    if b > 0 then a / b else (-a) / (-b)
  }

  /** `total_chunks = (size + upload_chunk_size - 1) // upload_chunk_size`; a chunk size of 0
      raises `ZeroDivisionError`. */
  function PartCount(size: int, chunkSize: int): Option<int>
  {
    if chunkSize == 0 then None else Some(FloorDiv(size + chunkSize - 1, chunkSize))
  }

  /** For a positive chunk size the part count is the ceiling of `size / chunkSize`: the smallest
      number of chunks that holds `size` bytes. */
  lemma PartCountIsCeiling(size: nat, chunkSize: int)
    requires chunkSize > 0
    ensures PartCount(size, chunkSize).Some?
    ensures var n := PartCount(size, chunkSize).value;
      n >= 0 && n * chunkSize >= size && (n > 0 ==> (n - 1) * chunkSize < size)
  {
    var n := FloorDiv(size + chunkSize - 1, chunkSize);
    assert n * chunkSize <= size + chunkSize - 1 < n * chunkSize + chunkSize;
    assert (n - 1) * chunkSize == n * chunkSize - chunkSize;
  }

  /** Server and browser agree on the number of parts of a file: `(size + C - 1) // C` with the
      browser's 8 MiB chunk size is the browser's `Math.ceil(size / C)`. */
  lemma ServerCountIsClientCount(size: nat)
    ensures PartCount(size, ChunkPlan.ChunkSize) == Some(ChunkPlan.ChunkCount(size))
  {
    var c := ChunkPlan.ChunkSize;
    PartCountIsCeiling(size, c);
    var n := PartCount(size, c).value;
    var m := ChunkPlan.ChunkCount(size);
    if n < m {
      MulMonotone(n, m - 1, c);
    } else if m < n {
      MulMonotone(m, n - 1, c);
    }
  }

  lemma MulMonotone(a: int, b: int, c: nat)
    requires a <= b
    ensures a * c <= b * c
  {
    assert b * c - a * c == (b - a) * c;
  }

  // ---------------------------------------------------------------------------------------------
  // `generate_presigned_url`.

  /** The `Params` of a presigned request: `Bucket` and `Key`, and `UploadId` with `PartNumber` for
      the upload of one part. */
  datatype Params = Params(bucket: string, key: string, multipart: Option<(string, int)>)

  /** A presigned URL, as the request it authorises: the client operation, its parameters and the
      expiry in seconds. */
  datatype Presigned = Presigned(operation: string, params: Params, expiresIn: int)

  /** Python truthiness of an optional string and an optional integer. */
  predicate TruthyText(s: Option<string>) { s.Some? && s.value != "" }
  predicate TruthyNumber(n: Option<int>) { n.Some? && n.value != 0 }

  /** `generate_presigned_url`: `UploadId` and `PartNumber` join `Bucket` and `Key` only when both
      are truthy; otherwise the parameters are exactly `Bucket` and `Key`. */
  function GeneratePresignedUrl(bucket: string, key: string, operation: string, expiresIn: int,
                                uploadId: Option<string>, partNumber: Option<int>): (r: Presigned)
    ensures r.operation == operation && r.expiresIn == expiresIn
    ensures r.params.bucket == bucket && r.params.key == key
    ensures r.params.multipart.Some? <==> TruthyText(uploadId) && TruthyNumber(partNumber)
    ensures r.params.multipart.Some? ==> r.params.multipart.value == (uploadId.value, partNumber.value)
  {
    var multipart := if TruthyText(uploadId) && TruthyNumber(partNumber)
                     then Some((uploadId.value, partNumber.value)) else None;
    Presigned(operation, Params(bucket, key, multipart), expiresIn)
  }

  // ---------------------------------------------------------------------------------------------
  // `start_upload`.

  /** Expiry of a part upload target, in seconds. */
  const PartExpiry: int := 3600

  /** One element of `start_upload`'s answer: a target per part, and the multipart upload's id. */
  datatype UploadEntry = UploadEntry(token: seq<Presigned>, uploadId: string)

  /** What makes `start_upload` raise: a path without parts, or a chunk size of 0. */
  datatype StartError = BadPath(PathError) | ZeroDivision

  /** The targets of the parts `1..total`: one `upload_part` request per part number, in ascending
      order, each naming the upload id (when it is not empty) and its part number. */
  function PartTargets(bucket: string, key: string, uploadId: string, total: int): (r: seq<Presigned>)
    ensures |r| == if total > 0 then total else 0
    ensures forall i :: 0 <= i < |r| ==>
      && r[i].operation == "upload_part" && r[i].expiresIn == PartExpiry
      && r[i].params == Params(bucket, key, if uploadId != "" then Some((uploadId, i + 1)) else None)
  {
    var n := if total > 0 then total else 0;
    seq(n, i requires 0 <= i < n =>
      GeneratePresignedUrl(bucket, key, "upload_part", PartExpiry, Some(uploadId), Some(i + 1)))
  }

  /** What `start_upload` produces for one `[path, size]` entry, given the id of the multipart
      upload it creates. */
  function StartFile(file: (string, nat), chunkSize: int, uploadId: string): Result<UploadEntry, StartError>
  {
    match ParseObjPath(file.0)
    case Failure(e) => Failure(BadPath(e))
    case Success((bucket, key)) =>
      match PartCount(file.1, chunkSize)
      case None => Failure(ZeroDivision)
      case Some(total) => Success(UploadEntry(PartTargets(bucket, key, uploadId, total), uploadId))
  }

  /** The results of a run over several items that stops at the first error: every value in order,
      or the first error. */
  function Collect<T, E>(rs: seq<Result<T, E>>): Result<seq<T>, E>
  {
    if rs == [] then Success([])
    else
      match rs[0]
      case Failure(e) => Failure(e)
      case Success(x) => Then([x], Collect(rs[1..]))
  }

  /** The elements of `acc` in front of a successful result; an error stays an error. */
  function Then<T, E>(acc: seq<T>, r: Result<seq<T>, E>): Result<seq<T>, E>
  {
    match r
    case Success(rest) => Success(acc + rest)
    case Failure(e) => Failure(e)
  }

  lemma ThenNothing<T, E>(r: Result<seq<T>, E>)
    ensures Then([], r) == r
  {
    if r.Success? {
      assert [] + r.value == r.value;
    }
  }

  lemma ThenThen<T, E>(a: seq<T>, b: seq<T>, r: Result<seq<T>, E>)
    ensures Then(a, Then(b, r)) == Then(a + b, r)
  {
    if r.Success? {
      assert a + (b + r.value) == (a + b) + r.value;
    }
  }

  /** One more item of a run: its value joins the collected ones, or its error ends the run. */
  lemma CollectStep<T, E>(rs: seq<Result<T, E>>, i: nat, acc: seq<T>)
    requires i < |rs|
    requires Then(acc, Collect(rs[i..])) == Collect(rs)
    ensures rs[i].Failure? ==> Collect(rs) == Failure(rs[i].error)
    ensures rs[i].Success? ==> Then(acc + [rs[i].value], Collect(rs[i + 1..])) == Collect(rs)
  {
    assert rs[i..][1..] == rs[i + 1..];
    if rs[i].Success? {
      ThenThen(acc, [rs[i].value], Collect(rs[i + 1..]));
    }
  }

  /** A run succeeds exactly when every item does, and then holds every item's value in order; it
      fails with the error of the first item that fails. */
  lemma {:induction false} CollectSpec<T, E>(rs: seq<Result<T, E>>)
    ensures Collect(rs).Success? <==> forall j :: 0 <= j < |rs| ==> rs[j].Success?
    ensures Collect(rs).Success? ==>
      |Collect(rs).value| == |rs| && forall k :: 0 <= k < |rs| ==> Collect(rs).value[k] == rs[k].value
    ensures Collect(rs).Failure? ==>
      exists j :: 0 <= j < |rs| && rs[j].Failure? && Collect(rs).error == rs[j].error
        && forall l :: 0 <= l < j ==> rs[l].Success?
    decreases |rs|
  {
    if rs != [] {
      var tail := rs[1..];
      CollectSpec(tail);
      if rs[0].Success? {
        if Collect(tail).Success? {
          var all := Collect(rs).value;
          assert all == [rs[0].value] + Collect(tail).value;
          forall k | 0 <= k < |rs| ensures all[k] == rs[k].value {
            if k > 0 {
              assert all[k] == Collect(tail).value[k - 1] && tail[k - 1] == rs[k];
            }
          }
        } else {
          var j :| 0 <= j < |tail| && tail[j].Failure? && Collect(tail).error == tail[j].error
            && forall l :: 0 <= l < j ==> tail[l].Success?;
          assert rs[j + 1] == tail[j];
          forall l | 0 <= l < j + 1 ensures rs[l].Success? {
            if l > 0 {
              assert rs[l] == tail[l - 1];
            }
          }
        }
        if forall j :: 0 <= j < |rs| ==> rs[j].Success? {
          forall j | 0 <= j < |tail| ensures tail[j].Success? {
            assert tail[j] == rs[j + 1];
          }
        }
      }
    }
  }

  /** `start_upload`'s per-file results: the `i`-th file's `create_multipart_upload` gives `ids(i)`. */
  function StartResults(files: seq<(string, nat)>, chunkSize: int, ids: nat -> string): (rs: seq<Result<UploadEntry, StartError>>)
    ensures |rs| == |files|
  {
    seq(|files|, i requires 0 <= i < |files| => StartFile(files[i], chunkSize, ids(i)))
  }

  /** The body of `start_upload`'s loop for one file: parse its path, create the multipart upload
      (whose id is `uploadId`), count its parts and mint one target per part. */
  method StartOne(file: (string, nat), chunkSize: int, uploadId: string) returns (r: Result<UploadEntry, StartError>)
    ensures r == StartFile(file, chunkSize, uploadId)
  {
    var parsed := ParseObjPath(file.0);
    if parsed.Failure? {
      return Failure(BadPath(parsed.error));
    }
    var (bucket, key) := parsed.value;
    if chunkSize == 0 {
      return Failure(ZeroDivision);
    }
    var total := FloorDiv(file.1 + chunkSize - 1, chunkSize);
    var token := PartTargets(bucket, key, uploadId, total);
    return Success(UploadEntry(token, uploadId));
  }

  /** `start_upload`: the files in order, stopping at the first one that raises. */
  method StartUpload(files: seq<(string, nat)>, chunkSize: int, ids: nat -> string)
    returns (r: Result<seq<UploadEntry>, StartError>)
    ensures r == Collect(StartResults(files, chunkSize, ids))
  {
    ghost var rs := StartResults(files, chunkSize, ids);
    var urlList: seq<UploadEntry> := [];
    assert rs[0..] == rs;
    ThenNothing(Collect(rs));
    for i := 0 to |files|
      invariant Then(urlList, Collect(rs[i..])) == Collect(rs)
    {
      var entry := StartOne(files[i], chunkSize, ids(i));
      assert entry == rs[i];
      CollectStep(rs, i, urlList);
      if entry.Failure? {
        return Failure(entry.error);
      }
      urlList := urlList + [entry.value];
    }
    assert rs[|files|..] == [];
    assert urlList + [] == urlList;
    return Success(urlList);
  }

  /** Browser and server agree on every file's part count: for the `startupload` request the browser
      sends, each entry of the server's answer holds exactly one target per browser chunk, and the
      target of chunk `i` is the one for part `i + 1`. */
  lemma ClientServerPartCount(files: seq<Upload.FileInfo>, uploadPath: string, ids: nat -> string)
    requires Collect(StartResults(Upload.StartRequestFor(files, uploadPath).fileList, ChunkPlan.ChunkSize, ids)).Success?
    ensures var entries := Collect(StartResults(Upload.StartRequestFor(files, uploadPath).fileList, ChunkPlan.ChunkSize, ids)).value;
      && |entries| == |files|
      && forall i :: 0 <= i < |files| ==>
           && entries[i].uploadId == ids(i)
           && |entries[i].token| == ChunkPlan.ChunkCount(files[i].size)
           && forall c :: 0 <= c < |entries[i].token| ==>
                entries[i].token[c].params.multipart == (if ids(i) != "" then Some((ids(i), c + 1)) else None)
  {
    var fileList := Upload.StartRequestFor(files, uploadPath).fileList;
    var rs := StartResults(fileList, ChunkPlan.ChunkSize, ids);
    CollectSpec(rs);
    var entries := Collect(rs).value;
    forall i | 0 <= i < |files|
      ensures entries[i].uploadId == ids(i)
      ensures |entries[i].token| == ChunkPlan.ChunkCount(files[i].size)
      ensures forall c :: 0 <= c < |entries[i].token| ==>
                entries[i].token[c].params.multipart == (if ids(i) != "" then Some((ids(i), c + 1)) else None)
    {
      assert rs[i] == StartFile(fileList[i], ChunkPlan.ChunkSize, ids(i));
      StartFileTargets(fileList[i], ids(i));
    }
  }

  /** A file `start_upload` accepts with the browser's chunk size gets one target per browser chunk,
      for the parts `1..n` in order. */
  lemma StartFileTargets(file: (string, nat), uploadId: string)
    requires StartFile(file, ChunkPlan.ChunkSize, uploadId).Success?
    ensures var entry := StartFile(file, ChunkPlan.ChunkSize, uploadId).value;
      && entry.uploadId == uploadId
      && |entry.token| == ChunkPlan.ChunkCount(file.1)
      && forall c :: 0 <= c < |entry.token| ==>
           entry.token[c].params.multipart == (if uploadId != "" then Some((uploadId, c + 1)) else None)
  {
    ServerCountIsClientCount(file.1);
  }

  // ---------------------------------------------------------------------------------------------
  // `get_object_list`.

  /** An S3 object key: never empty. */
  type Key = s: string | |s| >= 1 witness "k"

  /** An element of a page's `Contents`: the key and the size in bytes. */
  datatype ObjectInfo = ObjectInfo(key: Key, size: nat)

  /** One `list_objects_v2` answer: its `Contents`, the `Prefix` of each of its `CommonPrefixes`,
      and its `NextContinuationToken` (`""` when absent). */
  datatype Page = Page(contents: seq<ObjectInfo>, prefixes: seq<string>, nextToken: string)

  /** What a listing asks for. */
  datatype Listing = Listing(bucket: string, prefix: string, delimiter: string)

  /** One `list_objects_v2` call: the listing, and the continuation token after the first call. */
  datatype ListRequest = ListRequest(listing: Listing, token: Option<string>)

  /** The service, as the pages it answers a listing with, call after call; a call past the last
      page gets an empty page without a token. */
  type Store = Listing -> seq<Page>

  function PageAt(pages: seq<Page>, k: nat): Page
  {
    if k < |pages| then pages[k] else Page([], [], "")
  }

  /** The number of calls the loop makes: up to and including the first answer without a token. */
  function Calls(pages: seq<Page>): (n: nat)
    ensures 1 <= n <= |pages| + 1
  {
    if pages == [] || pages[0].nextToken == "" then 1 else 1 + Calls(pages[1..])
  }

  /** The loop stops at the first answer without a token: every answer before it has one. */
  lemma {:induction false} CallsSpec(pages: seq<Page>)
    ensures forall k :: 0 <= k < Calls(pages) - 1 ==> PageAt(pages, k).nextToken != ""
    ensures PageAt(pages, Calls(pages) - 1).nextToken == ""
    decreases |pages|
  {
    if pages != [] && pages[0].nextToken != "" {
      CallsSpec(pages[1..]);
      forall k | 1 <= k < Calls(pages) ensures PageAt(pages, k) == PageAt(pages[1..], k - 1) {
      }
    }
  }

  /** The `Contents` of the pages the loop reads, in order. */
  function AllContents(pages: seq<Page>): seq<ObjectInfo>
  {
    if pages == [] then []
    else pages[0].contents + (if pages[0].nextToken == "" then [] else AllContents(pages[1..]))
  }

  /** The `CommonPrefixes` of the pages the loop reads, in order. */
  function AllPrefixes(pages: seq<Page>): seq<string>
  {
    if pages == [] then []
    else pages[0].prefixes + (if pages[0].nextToken == "" then [] else AllPrefixes(pages[1..]))
  }

  /** An element of the processed file list: name and size (the formatted size string and the
      date are not modelled). */
  datatype FileItem = FileItem(name: string, size: nat)

  /** The file list of a processed listing: every object but the one whose key is the prefix
      itself, in order. */
  function FilesOf(contents: seq<ObjectInfo>, prefix: string): (r: seq<FileItem>)
    ensures |r| <= |contents|
    ensures forall k :: 0 <= k < |r| ==> r[k].name != prefix
  {
    if contents == [] then []
    else if contents[0].key == prefix then FilesOf(contents[1..], prefix)
    else [FileItem(contents[0].key, contents[0].size)] + FilesOf(contents[1..], prefix)
  }

  /** What `get_object_list` returns: the raw `Contents`, or the folders and the files. */
  datatype ObjectList = Raw(contents: seq<ObjectInfo>) | Processed(folders: seq<string>, files: seq<FileItem>)

  function ObjectListOf(pages: seq<Page>, prefix: string, rawList: bool): ObjectList
  {
    if rawList then Raw(AllContents(pages))
    else Processed(AllPrefixes(pages), FilesOf(AllContents(pages), prefix))
  }

  /** The first `n` calls of a listing: the first without a continuation token, each later one
      with the token of the answer before it. */
  function RequestsOf(listing: Listing, pages: seq<Page>, n: nat): (r: seq<ListRequest>)
    requires n <= |pages| + 1
    ensures |r| == n
  {
    seq(n, j requires 0 <= j < n => ListRequest(listing, if j == 0 then None else Some(pages[j - 1].nextToken)))
  }

  /** `get_object_list`: calls `list_objects_v2`, first without a continuation token and then with
      the token of the previous answer, until an answer has none; accumulates `Contents` and
      `CommonPrefixes`; then returns the raw contents, or the prefixes and the files. */
  method GetObjectList(store: Store, bucket: string, prefix: string, delimiter: string, rawList: bool)
    returns (requests: seq<ListRequest>, result: ObjectList)
    ensures var pages := store(Listing(bucket, prefix, delimiter));
      && |requests| == Calls(pages)
      && (forall j :: 0 <= j < |requests| ==> requests[j].listing == Listing(bucket, prefix, delimiter))
      && requests[0].token == None
      && (forall j :: 1 <= j < |requests| ==> requests[j].token == Some(pages[j - 1].nextToken))
      && result == ObjectListOf(pages, prefix, rawList)
  {
    var listing := Listing(bucket, prefix, delimiter);
    var pages := store(listing);
    var contents, commonPrefixes;
    requests, contents, commonPrefixes := ReadPages(listing, pages);
    if rawList {
      result := Raw(contents);
    } else {
      result := Processed(commonPrefixes, FilesOf(contents, prefix));
    }
  }

  /** The `while True` loop of `get_object_list`. */
  method ReadPages(listing: Listing, pages: seq<Page>)
    returns (requests: seq<ListRequest>, contents: seq<ObjectInfo>, commonPrefixes: seq<string>)
    ensures requests == RequestsOf(listing, pages, Calls(pages))
    ensures contents == AllContents(pages) && commonPrefixes == AllPrefixes(pages)
  {
    contents := [];
    commonPrefixes := [];
    var token: Option<string> := None;
    requests := [];
    var k := 0;
    assert pages[0..] == pages;
    while true
      invariant k <= |pages|
      invariant contents + AllContents(pages[k..]) == AllContents(pages)
      invariant commonPrefixes + AllPrefixes(pages[k..]) == AllPrefixes(pages)
      invariant k + Calls(pages[k..]) == Calls(pages)
      invariant requests == RequestsOf(listing, pages, k)
      invariant token == if k == 0 then None else Some(pages[k - 1].nextToken)
      decreases |pages| - k
    {
      RequestsSnoc(listing, pages, k);
      requests := requests + [ListRequest(listing, token)];
      var page := PageAt(pages, k);
      ListingStep(pages, k);
      contents := contents + page.contents;
      commonPrefixes := commonPrefixes + page.prefixes;
      if page.nextToken != "" {
        assert contents + AllContents(pages[k + 1..]) == AllContents(pages);
        assert commonPrefixes + AllPrefixes(pages[k + 1..]) == AllPrefixes(pages);
        token := Some(page.nextToken);
        k := k + 1;
      } else {
        assert Calls(pages) == k + 1;
        assert contents == AllContents(pages) by {
          assert AllContents(pages[k..]) == page.contents;
        }
        assert commonPrefixes == AllPrefixes(pages) by {
          assert AllPrefixes(pages[k..]) == page.prefixes;
        }
        break;
      }
    }
  }

  lemma RequestsSnoc(listing: Listing, pages: seq<Page>, k: nat)
    requires k <= |pages|
    ensures RequestsOf(listing, pages, k + 1) ==
      RequestsOf(listing, pages, k) + [ListRequest(listing, if k == 0 then None else Some(pages[k - 1].nextToken))]
  {
  }

  /** Reading page `k` of a listing. */
  lemma ListingStep(pages: seq<Page>, k: nat)
    requires k <= |pages|
    ensures AllContents(pages[k..]) ==
      PageAt(pages, k).contents + (if PageAt(pages, k).nextToken == "" then [] else AllContents(pages[k + 1..]))
    ensures AllPrefixes(pages[k..]) ==
      PageAt(pages, k).prefixes + (if PageAt(pages, k).nextToken == "" then [] else AllPrefixes(pages[k + 1..]))
    ensures Calls(pages[k..]) == if PageAt(pages, k).nextToken == "" then 1 else 1 + Calls(pages[k + 1..])
  {
    if k < |pages| {
      assert pages[k..][0] == pages[k] && pages[k..][1..] == pages[k + 1..];
    }
  }

  /** The `Contents` of each answer the loop receives, in order. */
  function CalledContents(pages: seq<Page>): (r: seq<seq<ObjectInfo>>)
    ensures |r| == Calls(pages)
    ensures forall k :: 0 <= k < |r| ==> r[k] == PageAt(pages, k).contents
  {
    seq(Calls(pages), k requires 0 <= k < Calls(pages) => PageAt(pages, k).contents)
  }

  /** The accumulated `Contents` are those of the answers the loop receives, in order. */
  lemma {:induction false} AllContentsAreCalledPages(pages: seq<Page>)
    ensures AllContents(pages) == Concat(CalledContents(pages))
    decreases |pages|
  {
    var read := CalledContents(pages);
    if pages == [] || pages[0].nextToken == "" {
      assert read == [PageAt(pages, 0).contents];
      ConcatOne(PageAt(pages, 0).contents);
    } else {
      AllContentsAreCalledPages(pages[1..]);
      var rest := CalledContents(pages[1..]);
      forall k | 0 <= k < |rest| ensures rest[k] == read[k + 1] {
        assert PageAt(pages[1..], k) == PageAt(pages, k + 1);
      }
      assert read[1..] == rest;
      assert read[0] == pages[0].contents;
    }
  }

  /** A listed object is in the file list exactly when its key is not the prefix. */
  lemma {:induction false} FilesOfSpec(contents: seq<ObjectInfo>, prefix: string, f: FileItem)
    ensures f in FilesOf(contents, prefix) <==>
      exists c :: c in contents && c.key != prefix && f == FileItem(c.key, c.size)
    decreases |contents|
  {
    if contents != [] {
      FilesOfSpec(contents[1..], prefix, f);
      var c0 := contents[0];
      if exists c :: c in contents && c.key != prefix && f == FileItem(c.key, c.size) {
        var c :| c in contents && c.key != prefix && f == FileItem(c.key, c.size);
        if c != c0 {
          assert c in contents[1..];
        }
      }
      if exists c :: c in contents[1..] && c.key != prefix && f == FileItem(c.key, c.size) {
        var c :| c in contents[1..] && c.key != prefix && f == FileItem(c.key, c.size);
        assert c in contents;
      }
    }
  }

  /** A listing without the folder marker keeps every object, in order. */
  lemma {:induction false} FilesOfWithoutMarker(contents: seq<ObjectInfo>, prefix: string)
    requires forall k :: 0 <= k < |contents| ==> contents[k].key != prefix
    ensures |FilesOf(contents, prefix)| == |contents|
    ensures forall k :: 0 <= k < |contents| ==>
      FilesOf(contents, prefix)[k] == FileItem(contents[k].key, contents[k].size)
    decreases |contents|
  {
    if contents != [] {
      FilesOfWithoutMarker(contents[1..], prefix);
    }
  }

  // ---------------------------------------------------------------------------------------------
  // `get_signed_url`.

  /** The results of a run over several items, each giving several values, that stops at the
      first error: all values in order, or the first error. */
  function Flatten<T, E>(rs: seq<Result<seq<T>, E>>): Result<seq<T>, E>
  {
    if rs == [] then Success([])
    else
      match rs[0]
      case Failure(e) => Failure(e)
      case Success(xs) => Then(xs, Flatten(rs[1..]))
  }

  /** One more item of a run: its values join the collected ones, or its error ends the run. */
  lemma FlattenStep<T, E>(rs: seq<Result<seq<T>, E>>, i: nat, acc: seq<T>)
    requires i < |rs|
    requires Then(acc, Flatten(rs[i..])) == Flatten(rs)
    ensures rs[i].Failure? ==> Flatten(rs) == Failure(rs[i].error)
    ensures rs[i].Success? ==> Then(acc + rs[i].value, Flatten(rs[i + 1..])) == Flatten(rs)
  {
    assert rs[i..][1..] == rs[i + 1..];
    if rs[i].Success? {
      ThenThen(acc, rs[i].value, Flatten(rs[i + 1..]));
    }
  }

  /** One more item of a run that continues the values `pre` already collected. */
  lemma FlattenStepAfter<T, E>(pre: seq<T>, rs: seq<Result<seq<T>, E>>, i: nat, acc: seq<T>)
    requires i < |rs|
    requires Then(acc, Flatten(rs[i..])) == Then(pre, Flatten(rs))
    ensures rs[i].Failure? ==> Flatten(rs) == Failure(rs[i].error)
    ensures rs[i].Success? ==> Then(acc + rs[i].value, Flatten(rs[i + 1..])) == Then(pre, Flatten(rs))
  {
    assert rs[i..][1..] == rs[i + 1..];
    if rs[i].Success? {
      ThenThen(acc, rs[i].value, Flatten(rs[i + 1..]));
    }
  }

  /** A run over two lists of items is the run over the first, then the run over the second. */
  lemma {:induction false} FlattenAppend<T, E>(a: seq<Result<seq<T>, E>>, b: seq<Result<seq<T>, E>>)
    ensures Flatten(a + b) == match Flatten(a) case Failure(e) => Failure(e) case Success(xs) => Then(xs, Flatten(b))
    decreases |a|
  {
    if a == [] {
      assert a + b == b;
      ThenNothing(Flatten(b));
    } else {
      FlattenAppend(a[1..], b);
      assert (a + b)[1..] == a[1..] + b;
      if a[0].Success? && Flatten(a[1..]).Success? {
        ThenThen(a[0].value, Flatten(a[1..]).value, Flatten(b));
      }
    }
  }

  /** The run of items that each give exactly one value, and only values that satisfy `P`, holds
      only such values. */
  lemma {:induction false} FlattenAll<T, E>(rs: seq<Result<seq<T>, E>>, P: T -> bool)
    requires forall i :: 0 <= i < |rs| && rs[i].Success? ==> forall x :: x in rs[i].value ==> P(x)
    ensures Flatten(rs).Success? ==> forall x :: x in Flatten(rs).value ==> P(x)
    decreases |rs|
  {
    if rs != [] {
      FlattenAll(rs[1..], P);
    }
  }

  /** Expiry of a target for a file found under a folder, and of a target for a selected file. */
  const FolderEntryExpiry: int := 300
  const FileEntryExpiry: int := 3000

  /** An element of `get_signed_url`'s list: the path the browser saves to, and the target. */
  datatype UrlEntry = UrlEntry(path: string, token: Presigned)

  /** The normalised folder key: `_key` when it ends with `/`, else `_key + '/'`. */
  function FolderPathOf(key: string): (p: string)
    requires |key| >= 1
    ensures |p| >= 1 && p[|p| - 1] == '/'
    ensures p == key || p == key + "/"
  {
    if key[|key| - 1] == '/' then key else key + "/"
  }

  /** What a listed object under `folderPath` adds: nothing for a key ending with `/`, otherwise the
      key relative to the folder's parent and a target for the key. */
  function ListedUrl(bucket: string, folderPath: string, c: ObjectInfo, operation: string): (r: Result<seq<UrlEntry>, PathError>)
    ensures r.Success? ==> forall e :: e in r.value ==>
      && e.token == GeneratePresignedUrl(bucket, c.key, operation, FolderEntryExpiry, None, None)
      && c.key[|c.key| - 1] != '/'
  {
    if c.key[|c.key| - 1] == '/' then Success([])
    else
      match RelativeTo(c.key, ParentParts(Parts(folderPath)))
      case Failure(e) => Failure(e)
      case Success(path) =>
        Success([UrlEntry(path, GeneratePresignedUrl(bucket, c.key, operation, FolderEntryExpiry, None, None))])
  }

  function ListedResults(bucket: string, folderPath: string, contents: seq<ObjectInfo>, operation: string): (rs: seq<Result<seq<UrlEntry>, PathError>>)
    ensures |rs| == |contents|
  {
    seq(|contents|, j requires 0 <= j < |contents| => ListedUrl(bucket, folderPath, contents[j], operation))
  }

  /** What a selected folder adds to the list: the entries of every object listed under it. */
  function FolderUrls(folder: string, operation: string, store: Store): Result<seq<UrlEntry>, PathError>
  {
    match ParseObjPath(folder)
    case Failure(e) => Failure(e)
    case Success((bucket, key)) =>
      ParsedKeyShape(folder);
      var folderPath := FolderPathOf(key);
      Flatten(ListedResults(bucket, folderPath, AllContents(store(Listing(bucket, folderPath, ""))), operation))
  }

  /** What a selected file adds to the list: its key's last piece and a target for the key. */
  function FileUrl(file: string, operation: string): Result<seq<UrlEntry>, PathError>
  {
    match ParseObjPath(file)
    case Failure(e) => Failure(e)
    case Success((bucket, key)) =>
      Success([UrlEntry(LastPiece(key, '/'), GeneratePresignedUrl(bucket, key, operation, FileEntryExpiry, None, None))])
  }

  function FolderResults(folders: seq<string>, operation: string, store: Store): (rs: seq<Result<seq<UrlEntry>, PathError>>)
    ensures |rs| == |folders|
  {
    seq(|folders|, i requires 0 <= i < |folders| => FolderUrls(folders[i], operation, store))
  }

  function FileResults(files: seq<string>, operation: string): (rs: seq<Result<seq<UrlEntry>, PathError>>)
    ensures |rs| == |files|
  {
    seq(|files|, i requires 0 <= i < |files| => FileUrl(files[i], operation))
  }

  /** What `get_signed_url` returns: the folders' entries, then the files' entries. */
  function SignedUrls(folders: seq<string>, files: seq<string>, operation: string, store: Store): Result<seq<UrlEntry>, PathError>
  {
    Flatten(FolderResults(folders, operation, store) + FileResults(files, operation))
  }

  /** The inner loop of `get_signed_url`: the objects listed under one folder. */
  method ListedUrls(bucket: string, folderPath: string, contents: seq<ObjectInfo>, operation: string)
    returns (r: Result<seq<UrlEntry>, PathError>)
    ensures r == Flatten(ListedResults(bucket, folderPath, contents, operation))
  {
    ghost var rs := ListedResults(bucket, folderPath, contents, operation);
    var urlList: seq<UrlEntry> := [];
    assert rs[0..] == rs;
    ThenNothing(Flatten(rs));
    for j := 0 to |contents|
      invariant Then(urlList, Flatten(rs[j..])) == Flatten(rs)
    {
      FlattenStep(rs, j, urlList);
      var c := contents[j];
      if c.key[|c.key| - 1] != '/' {
        var token := GeneratePresignedUrl(bucket, c.key, operation, FolderEntryExpiry, None, None);
        var path := RelativeTo(c.key, ParentParts(Parts(folderPath)));
        if path.Failure? {
          return Failure(path.error);
        }
        urlList := urlList + [UrlEntry(path.value, token)];
      } else {
        assert urlList + [] == urlList;
      }
    }
    assert rs[|contents|..] == [];
    assert urlList + [] == urlList;
    return Success(urlList);
  }

  /** The body of `get_signed_url`'s folder loop for one folder. */
  method OneFolderUrls(folder: string, operation: string, store: Store) returns (r: Result<seq<UrlEntry>, PathError>)
    ensures r == FolderUrls(folder, operation, store)
  {
    var parsed := ParseObjPath(folder);
    if parsed.Failure? {
      return Failure(parsed.error);
    }
    var (bucket, key) := parsed.value;
    ParsedKeyShape(folder);
    var folderPath := if key[|key| - 1] == '/' then key else key + "/";
    var _, listed := GetObjectList(store, bucket, folderPath, "", true);
    r := ListedUrls(bucket, folderPath, listed.contents, operation);
  }

  /** The body of `get_signed_url`'s file loop for one file. */
  method OneFileUrl(file: string, operation: string) returns (r: Result<seq<UrlEntry>, PathError>)
    ensures r == FileUrl(file, operation)
  {
    var parsed := ParseObjPath(file);
    if parsed.Failure? {
      return Failure(parsed.error);
    }
    var (bucket, key) := parsed.value;
    var token := GeneratePresignedUrl(bucket, key, operation, FileEntryExpiry, None, None);
    return Success([UrlEntry(LastPiece(key, '/'), token)]);
  }

  /** `get_signed_url`: the entries of every object under each folder, then one entry per file;
      the first path that raises ends it. */
  method GetSignedUrl(folders: seq<string>, files: seq<string>, operation: string, store: Store)
    returns (r: Result<seq<UrlEntry>, PathError>)
    ensures r == SignedUrls(folders, files, operation, store)
  {
    ghost var fr := FolderResults(folders, operation, store);
    ghost var fi := FileResults(files, operation);
    FlattenAppend(fr, fi);
    var urlList: seq<UrlEntry> := [];
    assert fr[0..] == fr;
    ThenNothing(Flatten(fr));
    for i := 0 to |folders|
      invariant Then(urlList, Flatten(fr[i..])) == Flatten(fr)
    {
      FlattenStep(fr, i, urlList);
      var entries := OneFolderUrls(folders[i], operation, store);
      assert entries == fr[i];
      if entries.Failure? {
        return Failure(entries.error);
      }
      urlList := urlList + entries.value;
    }
    assert fr[|folders|..] == [];
    assert urlList + [] == urlList;
    ghost var folderUrls := urlList;
    assert fi[0..] == fi;
    for i := 0 to |files|
      invariant Then(urlList, Flatten(fi[i..])) == Then(folderUrls, Flatten(fi))
    {
      FlattenStepAfter(folderUrls, fi, i, urlList);
      var entry := OneFileUrl(files[i], operation);
      assert entry == fi[i];
      if entry.Failure? {
        return Failure(entry.error);
      }
      urlList := urlList + entry.value;
    }
    assert fi[|files|..] == [];
    assert urlList + [] == urlList;
    return Success(urlList);
  }

  /** A run whose every item succeeds with values that all satisfy `P` holds only such values, and
      a run that succeeds had every item succeed. */
  lemma {:induction false} FlattenSucceeds<T, E>(rs: seq<Result<seq<T>, E>>)
    requires Flatten(rs).Success?
    ensures forall i :: 0 <= i < |rs| ==> rs[i].Success?
    decreases |rs|
  {
    if rs != [] {
      FlattenSucceeds(rs[1..]);
      forall i | 1 <= i < |rs| ensures rs[i].Success? {
        assert rs[i] == rs[1..][i - 1];
      }
    }
  }

  /** A run of items that each give exactly one value gives those values, one per item. */
  lemma {:induction false} FlattenSingles<T, E>(rs: seq<Result<seq<T>, E>>)
    requires forall i :: 0 <= i < |rs| ==> rs[i].Success? && |rs[i].value| == 1
    ensures Flatten(rs).Success? && |Flatten(rs).value| == |rs|
    ensures forall i :: 0 <= i < |rs| ==> Flatten(rs).value[i] == rs[i].value[0]
    decreases |rs|
  {
    if rs != [] {
      FlattenSingles(rs[1..]);
      var all := Flatten(rs).value;
      assert all == rs[0].value + Flatten(rs[1..]).value;
      forall i | 1 <= i < |rs| ensures all[i] == rs[i].value[0] {
        assert rs[i] == rs[1..][i - 1];
      }
    }
  }

  /** An entry made for an object found under a folder: a target that lasts 300 seconds, for a key
      that does not end with `/`. */
  predicate FromListing(e: UrlEntry)
  {
    e.token.expiresIn == FolderEntryExpiry && |e.token.params.key| >= 1
    && e.token.params.key[|e.token.params.key| - 1] != '/'
  }

  /** Every entry the objects listed under a folder give comes from an object whose key does not
      end with `/`. */
  lemma ListedFromListing(bucket: string, folderPath: string, contents: seq<ObjectInfo>, operation: string)
    ensures var r := Flatten(ListedResults(bucket, folderPath, contents, operation));
      r.Success? ==> forall e :: e in r.value ==> FromListing(e)
  {
    var rs := ListedResults(bucket, folderPath, contents, operation);
    forall i | 0 <= i < |rs| && rs[i].Success? ensures forall e :: e in rs[i].value ==> FromListing(e) {
      var c := contents[i];
      assert rs[i] == ListedUrl(bucket, folderPath, c, operation);
      forall e | e in rs[i].value ensures FromListing(e) {
        assert e.token.params.key == c.key;
      }
    }
    FlattenAll(rs, FromListing);
  }

  /** Every entry a folder adds comes from an object whose key does not end with `/`. */
  lemma FolderUrlsFromListing(folder: string, operation: string, store: Store)
    ensures FolderUrls(folder, operation, store).Success? ==>
      forall e :: e in FolderUrls(folder, operation, store).value ==> FromListing(e)
  {
    if ParseObjPath(folder).Success? {
      var (bucket, key) := ParseObjPath(folder).value;
      ParsedKeyShape(folder);
      var folderPath := FolderPathOf(key);
      ListedFromListing(bucket, folderPath, AllContents(store(Listing(bucket, folderPath, ""))), operation);
    }
  }

  /** `get_signed_url` lists every folder-derived entry before every file entry: after the entries
      of the folders, which all come from listed objects not ending with `/` and last 300 seconds,
      come the files' entries, one per file in order, each named by the last piece of its key and
      lasting 3000 seconds. */
  lemma SignedUrlsOrder(folders: seq<string>, files: seq<string>, operation: string, store: Store)
    requires SignedUrls(folders, files, operation, store).Success?
    ensures var urls := SignedUrls(folders, files, operation, store).value;
      var n := |urls| - |files|;
      && n >= 0
      && (forall j :: 0 <= j < n ==> FromListing(urls[j]))
      && forall i :: 0 <= i < |files| ==> IsFileEntry(urls[n + i], files[i], operation)
  {
    var fr := FolderResults(folders, operation, store);
    var fi := FileResults(files, operation);
    FlattenAppend(fr, fi);
    FolderEntries(folders, operation, store);
    FileEntries(files, operation);
    FoldersThenFiles(Flatten(fr).value, Flatten(fi).value, files, operation);
  }

  lemma FoldersThenFiles(a: seq<UrlEntry>, b: seq<UrlEntry>, files: seq<string>, operation: string)
    requires forall e :: e in a ==> FromListing(e)
    requires |b| == |files| && forall i :: 0 <= i < |files| ==> IsFileEntry(b[i], files[i], operation)
    ensures forall j :: 0 <= j < |a| ==> FromListing((a + b)[j])
    ensures forall i :: 0 <= i < |files| ==> IsFileEntry((a + b)[|a| + i], files[i], operation)
  {
    forall j | 0 <= j < |a| ensures FromListing((a + b)[j]) {
      assert (a + b)[j] == a[j] && a[j] in a;
    }
  }

  /** The entry of a selected file: its path parses, and the entry is named by the last piece of the
      key and holds a 3000-second target for the key. */
  predicate IsFileEntry(e: UrlEntry, file: string, operation: string)
  {
    && ParseObjPath(file).Success?
    && var (bucket, key) := ParseObjPath(file).value;
       e == UrlEntry(LastPiece(key, '/'), GeneratePresignedUrl(bucket, key, operation, FileEntryExpiry, None, None))
  }

  /** The folders' part of `get_signed_url`'s list holds only entries for listed objects. */
  lemma FolderEntries(folders: seq<string>, operation: string, store: Store)
    ensures var r := Flatten(FolderResults(folders, operation, store));
      r.Success? ==> forall e :: e in r.value ==> FromListing(e)
  {
    var fr := FolderResults(folders, operation, store);
    forall i | 0 <= i < |fr| && fr[i].Success? ensures forall e :: e in fr[i].value ==> FromListing(e) {
      FolderUrlsFromListing(folders[i], operation, store);
    }
    FlattenAll(fr, FromListing);
  }

  /** The files' part of `get_signed_url`'s list: one entry per file, in order. */
  lemma FileEntries(files: seq<string>, operation: string)
    requires Flatten(FileResults(files, operation)).Success?
    ensures var b := Flatten(FileResults(files, operation)).value;
      && |b| == |files|
      && forall i :: 0 <= i < |files| ==> IsFileEntry(b[i], files[i], operation)
  {
    var fi := FileResults(files, operation);
    FlattenSucceeds(fi);
    forall i | 0 <= i < |fi| ensures fi[i].Success? && |fi[i].value| == 1 && ParseObjPath(files[i]).Success? {
      assert fi[i] == FileUrl(files[i], operation);
    }
    FlattenSingles(fi);
    forall i | 0 <= i < |files| ensures IsFileEntry(Flatten(fi).value[i], files[i], operation) {
      assert fi[i] == FileUrl(files[i], operation);
    }
  }

  /** A folder selected as `bucket/segs…` and an object listed under it at `segs…/rest`: the folder
      key is normalised by appending one `/`, and the entry names the folder's last piece followed by
      the pieces of `rest`, so the download recreates the selected folder itself. */
  lemma FolderEntryPath(bucket: string, segs: seq<string>, rest: string, c: ObjectInfo, operation: string)
    requires Normal(bucket) && |segs| >= 1
    requires forall k :: 0 <= k < |segs| ==> Normal(segs[k])
    requires c.key == Join(segs, '/') + "/" + rest && c.key[|c.key| - 1] != '/'
    ensures ParseObjPath(Join([bucket] + segs, '/')) == Success((bucket, Join(segs, '/')))
    ensures |Join(segs, '/')| >= 1 && FolderPathOf(Join(segs, '/')) == Join(segs, '/') + "/"
    ensures ListedUrl(bucket, Join(segs, '/') + "/", c, operation) ==
      Success([UrlEntry(AsPosix([segs[|segs| - 1]] + Kept(Split(rest, '/'))),
                        GeneratePresignedUrl(bucket, c.key, operation, FolderEntryExpiry, None, None))])
  {
    ParseJoin(bucket, segs);
    JoinEndsWithLast(segs);
    var folderPath := Join(segs, '/') + "/";
    ListedPath(segs, rest);
    assert c.key == folderPath + rest;
    ListedUrlOf(bucket, folderPath, c, operation, AsPosix([segs[|segs| - 1]] + Kept(Split(rest, '/'))));
  }

  /** The entry of a listed object whose path relative to the folder's parent is `path`. */
  lemma ListedUrlOf(bucket: string, folderPath: string, c: ObjectInfo, operation: string, path: string)
    requires c.key[|c.key| - 1] != '/'
    requires RelativeTo(c.key, ParentParts(Parts(folderPath))) == Success(path)
    ensures ListedUrl(bucket, folderPath, c, operation) ==
      Success([UrlEntry(path, GeneratePresignedUrl(bucket, c.key, operation, FolderEntryExpiry, None, None))])
  {
  }

  // ---------------------------------------------------------------------------------------------
  // `prepare_delete`.

  /** `[bucket + '/' + item['name'] for item in files]`. */
  function Qualified(bucket: string, files: seq<FileItem>): (r: seq<string>)
    ensures |r| == |files|
    ensures forall k :: 0 <= k < |r| ==> r[k] == bucket + "/" + files[k].name
  {
    seq(|files|, k requires 0 <= k < |files| => bucket + "/" + files[k].name)
  }

  /** What a selected folder adds to the delete list: every object listed under the normalised
      folder key but the folder marker itself, as `bucket/key`. */
  function FolderDeletes(folder: string, store: Store): Result<seq<string>, PathError>
  {
    match ParseObjPath(folder)
    case Failure(e) => Failure(e)
    case Success((bucket, key)) =>
      ParsedKeyShape(folder);
      var folderPath := FolderPathOf(key);
      Success(Qualified(bucket, FilesOf(AllContents(store(Listing(bucket, folderPath, ""))), folderPath)))
  }

  function DeleteResults(folders: seq<string>, store: Store): (rs: seq<Result<seq<string>, PathError>>)
    ensures |rs| == |folders|
  {
    seq(|folders|, i requires 0 <= i < |folders| => FolderDeletes(folders[i], store))
  }

  /** What `prepare_delete` returns: the folders' objects, then `file_list` as it is. */
  function DeleteList(folders: seq<string>, fileList: seq<string>, store: Store): Result<seq<string>, PathError>
  {
    match Flatten(DeleteResults(folders, store))
    case Failure(e) => Failure(e)
    case Success(xs) => Success(xs + fileList)
  }

  /** The body of `prepare_delete`'s loop for one folder. */
  method OneFolderDeletes(folder: string, store: Store) returns (r: Result<seq<string>, PathError>)
    ensures r == FolderDeletes(folder, store)
  {
    var parsed := ParseObjPath(folder);
    if parsed.Failure? {
      return Failure(parsed.error);
    }
    var (bucket, key) := parsed.value;
    ParsedKeyShape(folder);
    var folderPath := if key[|key| - 1] == '/' then key else key + "/";
    var _, listed := GetObjectList(store, bucket, folderPath, "", false);
    return Success(Qualified(bucket, listed.files));
  }

  /** `prepare_delete`: the objects under each folder, then `file_list`. */
  method PrepareDelete(folders: seq<string>, fileList: seq<string>, store: Store)
    returns (r: Result<seq<string>, PathError>)
    ensures r == DeleteList(folders, fileList, store)
  {
    ghost var rs := DeleteResults(folders, store);
    var deleteList: seq<string> := [];
    assert rs[0..] == rs;
    ThenNothing(Flatten(rs));
    for i := 0 to |folders|
      invariant Then(deleteList, Flatten(rs[i..])) == Flatten(rs)
    {
      FlattenStep(rs, i, deleteList);
      var items := OneFolderDeletes(folders[i], store);
      assert items == rs[i];
      if items.Failure? {
        return Failure(items.error);
      }
      deleteList := deleteList + items.value;
    }
    assert rs[|folders|..] == [];
    assert deleteList + [] == deleteList;
    return Success(deleteList + fileList);
  }

  /** An entry `prepare_delete` makes for an object under a folder: the bucket, `/`, and a key
      that is not the folder marker. */
  predicate DeletesUnder(x: string, bucket: string, folderPath: string)
  {
    |x| > |bucket| && x[..|bucket| + 1] == bucket + "/" && x[|bucket| + 1..] != folderPath
  }

  /** Every entry a folder adds names the folder's bucket and an object other than the marker. */
  lemma FolderDeletesUnder(folder: string, store: Store)
    requires FolderDeletes(folder, store).Success?
    ensures var (bucket, key) := ParseObjPath(folder).value;
      |key| >= 1 && forall x :: x in FolderDeletes(folder, store).value ==> DeletesUnder(x, bucket, FolderPathOf(key))
  {
    var (bucket, key) := ParseObjPath(folder).value;
    ParsedKeyShape(folder);
    var folderPath := FolderPathOf(key);
    var files := FilesOf(AllContents(store(Listing(bucket, folderPath, ""))), folderPath);
    var xs := Qualified(bucket, files);
    forall x | x in xs ensures DeletesUnder(x, bucket, folderPath) {
      var k :| 0 <= k < |xs| && xs[k] == x;
      assert x == bucket + "/" + files[k].name;
      assert x[|bucket| + 1..] == files[k].name;
    }
  }

  /** `prepare_delete` ends with `file_list`, unchanged and in order, after the folders' entries. */
  lemma DeleteListEndsWithFiles(folders: seq<string>, fileList: seq<string>, store: Store)
    requires DeleteList(folders, fileList, store).Success?
    ensures var xs := DeleteList(folders, fileList, store).value;
      |xs| >= |fileList| && xs[|xs| - |fileList|..] == fileList
      && forall j :: 0 <= j < |xs| - |fileList| ==> xs[j] in Flatten(DeleteResults(folders, store)).value
  {
    var a := Flatten(DeleteResults(folders, store)).value;
    var xs := a + fileList;
    assert xs[|a|..] == fileList;
    forall j | 0 <= j < |a| ensures xs[j] in a {
      assert xs[j] == a[j];
    }
  }

  /** The entries before `file_list` all come from the selected folders' listings. */
  lemma DeleteListFolderEntries(folders: seq<string>, fileList: seq<string>, store: Store)
    requires DeleteList(folders, fileList, store).Success?
    ensures forall i :: 0 <= i < |folders| ==> FolderDeletes(folders[i], store).Success?
    ensures forall x :: x in Flatten(DeleteResults(folders, store)).value ==>
      exists i :: 0 <= i < |folders| && x in FolderDeletes(folders[i], store).value
  {
    var rs := DeleteResults(folders, store);
    FlattenSucceeds(rs);
    forall i | 0 <= i < |folders| ensures FolderDeletes(folders[i], store).Success? {
      assert rs[i] == FolderDeletes(folders[i], store);
    }
    FlattenFrom(rs);
  }

  /** Every value of a successful run comes from one of its items. */
  lemma {:induction false} FlattenFrom<T, E>(rs: seq<Result<seq<T>, E>>)
    requires Flatten(rs).Success?
    ensures forall x :: x in Flatten(rs).value ==> exists i :: 0 <= i < |rs| && rs[i].Success? && x in rs[i].value
    decreases |rs|
  {
    if rs != [] {
      FlattenFrom(rs[1..]);
      forall x | x in Flatten(rs).value ensures exists i :: 0 <= i < |rs| && rs[i].Success? && x in rs[i].value {
        if x !in rs[0].value {
          var i :| 0 <= i < |rs[1..]| && rs[1..][i].Success? && x in rs[1..][i].value;
          assert rs[i + 1] == rs[1..][i];
        }
      }
    }
  }

  // ---------------------------------------------------------------------------------------------
  // `delete_handle`.

  /** A cached client: the bucket it was made for and the client (an opaque identity here). */
  datatype Handle = Handle(bucket: string, client: nat)

  /** `[h for h in handles if h['bucket'] != bucket_name]`. */
  function WithoutBucket(handles: seq<Handle>, bucketName: string): (r: seq<Handle>)
    ensures |r| <= |handles|
    ensures forall k :: 0 <= k < |r| ==> r[k].bucket != bucketName
  {
    if handles == [] then []
    else if handles[0].bucket == bucketName then WithoutBucket(handles[1..], bucketName)
    else [handles[0]] + WithoutBucket(handles[1..], bucketName)
  }

  /** The class-level handle cache of `S3`. */
  class HandleCache {
    var handles: seq<Handle>

    /** The cache starts empty. */
    constructor()
      ensures handles == []
    {
      handles := [];
    }

    /** `delete_handle`: drops every cached handle for the bucket. */
    method DeleteHandle(bucketName: string)
      modifies this
      ensures handles == WithoutBucket(old(handles), bucketName)
    {
      handles := WithoutBucket(handles, bucketName);
    }
  }

  /** A handle stays in the cache exactly when it is for another bucket. */
  lemma {:induction false} WithoutBucketMembers(handles: seq<Handle>, bucketName: string, h: Handle)
    ensures h in WithoutBucket(handles, bucketName) <==> h in handles && h.bucket != bucketName
    decreases |handles|
  {
    if handles != [] {
      WithoutBucketMembers(handles[1..], bucketName, h);
      assert handles == [handles[0]] + handles[1..];
    }
  }

  /** Pruning keeps the order of the remaining handles: it distributes over concatenation. */
  lemma {:induction false} WithoutBucketAppend(a: seq<Handle>, b: seq<Handle>, bucketName: string)
    ensures WithoutBucket(a + b, bucketName) == WithoutBucket(a, bucketName) + WithoutBucket(b, bucketName)
    decreases |a|
  {
    if a == [] {
      assert a + b == b;
    } else {
      WithoutBucketAppend(a[1..], b, bucketName);
      assert (a + b)[0] == a[0] && (a + b)[1..] == a[1..] + b;
    }
  }

  /** A cache without handles for the bucket is left as it is; so pruning twice prunes once. */
  lemma {:induction false} WithoutBucketKeeps(handles: seq<Handle>, bucketName: string)
    requires forall k :: 0 <= k < |handles| ==> handles[k].bucket != bucketName
    ensures WithoutBucket(handles, bucketName) == handles
    decreases |handles|
  {
    if handles != [] {
      WithoutBucketKeeps(handles[1..], bucketName);
    }
  }

  lemma WithoutBucketIdempotent(handles: seq<Handle>, bucketName: string)
    ensures WithoutBucket(WithoutBucket(handles, bucketName), bucketName) == WithoutBucket(handles, bucketName)
  {
    WithoutBucketKeeps(WithoutBucket(handles, bucketName), bucketName);
  }
}
