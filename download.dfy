/** The download side of the browser client. `download` either saves each entry into a directory
    the user picked, recreating the entry's folders and streaming the body through a write buffer
    (`download_single_file`, `download_url`), or, in a browser without a directory picker and once
    the user chose to continue, saves every entry in turn through a hidden link whose file name is
    the entry's path with every `/` replaced by `#` (`fallback_download`).

    The network, the file handles and the timers are oracles: a fetch gives a response with a
    sequence of body frames, a write appends a blob to the file, a sleep is an event in a trace. */
module Download {
  import opened Results
  import opened Text

  /** One `{path, token}` element of the list the server's `get_signed_url` returns. */
  datatype DownloadEntry = DownloadEntry(path: string, token: string)

  // ---------------------------------------------------------------------------------------------
  // `fallback_download`.

  /** The inter-download delay of the fallback mode, in milliseconds. */
  const FallbackDelay: nat := 500

  /** The file name the fallback mode gives `path`: `path.replace(/\//g, "#")`. */
  function FlatName(path: string): (name: string)
    ensures '/' !in name
    ensures |name| == |path|
  {
    ReplaceAll(path, '/', '#')
  }

  /** What the fallback mode does, in order: clicking a hidden link to `href` saved as `filename`,
      and sleeping. */
  datatype Event = Click(href: string, filename: string) | Sleep(ms: nat)

  /** `fallback_download`: the entries one after another, each a click followed by a 500 ms sleep. */
  method FallbackDownload(entries: seq<DownloadEntry>) returns (trace: seq<Event>)
    ensures |trace| == 2 * |entries|
    ensures forall i :: 0 <= i < |entries| ==>
      trace[2 * i] == Click(entries[i].token, FlatName(entries[i].path)) && trace[2 * i + 1] == Sleep(FallbackDelay)
  {
    trace := [];
    for i := 0 to |entries|
      invariant |trace| == 2 * i
      invariant forall k :: 0 <= k < i ==>
        trace[2 * k] == Click(entries[k].token, FlatName(entries[k].path)) && trace[2 * k + 1] == Sleep(FallbackDelay)
    {
      trace := trace + [Click(entries[i].token, FlatName(entries[i].path)), Sleep(FallbackDelay)];
    }
  }

  /** In a fallback trace, a sleep of the full delay separates every click from the next one. */
  lemma ClicksSpaced(entries: seq<DownloadEntry>, trace: seq<Event>, a: nat, b: nat)
    requires |trace| == 2 * |entries|
    requires forall i :: 0 <= i < |entries| ==>
      trace[2 * i] == Click(entries[i].token, FlatName(entries[i].path)) && trace[2 * i + 1] == Sleep(FallbackDelay)
    requires a < b < |trace| && trace[a].Click? && trace[b].Click?
    ensures a + 1 < b && trace[a + 1] == Sleep(FallbackDelay)
  {
    assert trace[2 * (b / 2) + 1] == Sleep(FallbackDelay);
    assert trace[2 * (a / 2) + 1] == Sleep(FallbackDelay);
  }

  /** A path without `#` is recovered from its flat name by turning every `#` back into `/`. */
  lemma FlatNameInverse(path: string)
    requires '#' !in path
    ensures ReplaceAll(FlatName(path), '#', '/') == path
  {
    var back := ReplaceAll(FlatName(path), '#', '/');
    forall i | 0 <= i < |path| ensures back[i] == path[i] {
      assert path[i] != '#';
    }
  }

  /** So two different paths without `#` never get the same flat name. */
  lemma FlatNameInjective(p: string, q: string)
    requires '#' !in p && '#' !in q
    requires FlatName(p) == FlatName(q)
    ensures p == q
  {
    FlatNameInverse(p);
    FlatNameInverse(q);
  }

  /** A path that already holds `#` can collide with another: `a/b` and `a#b` are both saved as
      `a#b`. */
  lemma FlatNamesCollide()
    ensures FlatName("a/b") == FlatName("a#b") == "a#b"
  {
    assert FlatName("a/b")[1] == '#';
  }

  // ---------------------------------------------------------------------------------------------
  // `download_url`: the body streamed through the write buffer.

  /** The default `batchSize` of `download_url`: 8 MiB. */
  const BatchSize: nat := 8 * 1024 * 1024

  /** The body as the reader gives it: the frames `reader.read()` resolves with, in order, and
      whether the stream then ends (`done`) or the read after the last frame fails. */
  datatype Body = Body(frames: seq<seq<bv8>>, failsAfter: bool)

  /** What `fetch(url)` gives: a rejection, a response without `body`, or a response with its
      `Content-Length` header (as `parseInt` reads it; `None` for no header or `NaN`) and body. */
  datatype Fetched = FetchRejected | NoBody | Streamed(contentLength: Option<int>, body: Body)

  /** What `download_url` leaves behind: the blobs handed to `writable.write()` in order, whether
      the writable was closed, and the final value of the progress bar. What the file then holds
      is `SavedFile`. */
  datatype FileResult = FileResult(writes: seq<seq<bv8>>, closed: bool, progress: nat)

  /** The blobs handed to `write()` inside the read loop, from the frames still to read with `pending` bytes
      already buffered: each time the buffered size reaches `batchSize`, the whole buffer. */
  function Flushes(frames: seq<seq<bv8>>, batchSize: nat, pending: seq<bv8>): seq<seq<bv8>>
    decreases |frames|
  {
    if frames == [] then []
    else
      var buffered := pending + frames[0];
      if |buffered| >= batchSize then [buffered] + Flushes(frames[1..], batchSize, [])
      else Flushes(frames[1..], batchSize, buffered)
  }

  /** The bytes still in the buffer when the read loop ends. */
  function Remainder(frames: seq<seq<bv8>>, batchSize: nat, pending: seq<bv8>): seq<bv8>
    decreases |frames|
  {
    if frames == [] then pending
    else
      var buffered := pending + frames[0];
      if |buffered| >= batchSize then Remainder(frames[1..], batchSize, [])
      else Remainder(frames[1..], batchSize, buffered)
  }

  /** The blobs written for a body: the flushes of the loop, then the remainder when the stream
      ended normally and the remainder is not empty. */
  function StreamWrites(body: Body, batchSize: nat): seq<seq<bv8>>
  {
    var rest := Remainder(body.frames, batchSize, []);
    Flushes(body.frames, batchSize, []) + (if !body.failsAfter && |rest| > 0 then [rest] else [])
  }

  /** Whether the progress bar follows the bytes received: `if (totalBytes)`, that is a header
      that parsed to a non-zero number. */
  predicate Tracked(contentLength: Option<int>)
  {
    contentLength.Some? && contentLength.value != 0
  }

  /** What `download_url` does with what the fetch gave: the specification of the method below. */
  function DownloadUrlSpec(fetched: Fetched, batchSize: nat): FileResult
  {
    match fetched
    case FetchRejected => FileResult([], false, 0)
    case NoBody => FileResult([], false, 0)
    case Streamed(contentLength, body) =>
      FileResult(StreamWrites(body, batchSize), !body.failsAfter,
                 if Tracked(contentLength) then |Concat(body.frames)| else 0)
  }

  /** The read loop of `download_url`: each frame is pushed to `buffer`, the buffer is written as
      one blob and cleared once its size reaches `batchSize`, the bytes received are counted and,
      when the size is known, shown on the progress bar. After the stream ends a non-empty buffer
      is written and the file closed; a failed read skips both. */
  method DownloadUrl(fetched: Fetched, batchSize: nat) returns (result: FileResult)
    ensures result == DownloadUrlSpec(fetched, batchSize)
  {
    if !fetched.Streamed? {
      return FileResult([], false, 0);
    }
    var frames := fetched.body.frames;
    var totalTracked := Tracked(fetched.contentLength);
    var writes: seq<seq<bv8>> := [];
    var buffer: seq<seq<bv8>> := [];
    var bufferSize: nat := 0;
    var bytesReceived: nat := 0;
    var progress: nat := 0;
    var i := 0;
    while i < |frames|
      invariant i <= |frames|
      invariant bufferSize == |Concat(buffer)|
      invariant bufferSize < batchSize || bufferSize == 0
      invariant bytesReceived == |Concat(frames[..i])|
      invariant progress == if totalTracked then bytesReceived else 0
      invariant writes + Flushes(frames[i..], batchSize, Concat(buffer)) == Flushes(frames, batchSize, [])
      invariant Remainder(frames[i..], batchSize, Concat(buffer)) == Remainder(frames, batchSize, [])
    {
      var value := frames[i];
      writes, buffer, bufferSize := PushFrame(frames, i, batchSize, writes, buffer, bufferSize);
      ConcatAppend(frames[..i], [value]);
      ConcatOne(value);
      assert frames[..i + 1] == frames[..i] + [value];
      bytesReceived := bytesReceived + |value|;
      if totalTracked {
        progress := bytesReceived;
      }
      i := i + 1;
    }
    assert frames[i..] == [];
    assert frames[..i] == frames;
    assert writes == Flushes(frames, batchSize, []) && Concat(buffer) == Remainder(frames, batchSize, []);
    if fetched.body.failsAfter {
      return FileResult(writes, false, progress);
    }
    if bufferSize > 0 {
      writes := writes + [Concat(buffer)];
    }
    result := FileResult(writes, true, progress);
  }

  /** One frame pushed to `buffer`, and the buffer written and cleared once it reaches `batchSize`:
      the loop's account of what is written and what stays buffered moves on by one frame. */
  method PushFrame(frames: seq<seq<bv8>>, i: nat, batchSize: nat,
                   writes: seq<seq<bv8>>, buffer: seq<seq<bv8>>, bufferSize: nat)
    returns (writes': seq<seq<bv8>>, buffer': seq<seq<bv8>>, bufferSize': nat)
    requires i < |frames| && bufferSize == |Concat(buffer)|
    ensures bufferSize' == |Concat(buffer')|
    ensures bufferSize' < batchSize || bufferSize' == 0
    ensures writes' + Flushes(frames[i + 1..], batchSize, Concat(buffer'))
         == writes + Flushes(frames[i..], batchSize, Concat(buffer))
    ensures Remainder(frames[i + 1..], batchSize, Concat(buffer')) == Remainder(frames[i..], batchSize, Concat(buffer))
  {
    ReadOneFrame(frames, i, batchSize, Concat(buffer));
    ConcatAppend(buffer, [frames[i]]);
    ConcatOne(frames[i]);
    buffer' := buffer + [frames[i]];
    bufferSize' := bufferSize + |frames[i]|;
    writes' := writes;
    if bufferSize' >= batchSize {
      writes' := writes + [Concat(buffer')];
      assert writes' + Flushes(frames[i + 1..], batchSize, [])
          == writes + ([Concat(buffer')] + Flushes(frames[i + 1..], batchSize, []));
      buffer' := [];
      bufferSize' := 0;
    }
  }

  /** Reading frame `i`: how `Flushes`, `Remainder` and the byte count move on. */
  lemma ReadOneFrame(frames: seq<seq<bv8>>, i: nat, batchSize: nat, pending: seq<bv8>)
    requires i < |frames|
    ensures var buffered := pending + frames[i];
      && Flushes(frames[i..], batchSize, pending)
         == (if |buffered| >= batchSize then [buffered] + Flushes(frames[i + 1..], batchSize, [])
             else Flushes(frames[i + 1..], batchSize, buffered))
      && Remainder(frames[i..], batchSize, pending)
         == (if |buffered| >= batchSize then Remainder(frames[i + 1..], batchSize, [])
             else Remainder(frames[i + 1..], batchSize, buffered))
      && |Concat(frames[..i + 1])| == |Concat(frames[..i])| + |frames[i]|
  {
    assert frames[i..][1..] == frames[i + 1..];
    assert frames[..i + 1] == frames[..i] + [frames[i]];
    ConcatAppend(frames[..i], [frames[i]]);
    ConcatOne(frames[i]);
  }

  /** The blobs written in the loop followed by the bytes left in the buffer are exactly the bytes
      buffered before plus the bytes of every frame, in order. */
  lemma {:induction false} FlushesReassemble(frames: seq<seq<bv8>>, batchSize: nat, pending: seq<bv8>)
    ensures Concat(Flushes(frames, batchSize, pending)) + Remainder(frames, batchSize, pending) == pending + Concat(frames)
    decreases |frames|
  {
    if frames != [] {
      var buffered := pending + frames[0];
      if |buffered| >= batchSize {
        var rest := Flushes(frames[1..], batchSize, []);
        FlushesReassemble(frames[1..], batchSize, []);
        ConcatAppend([buffered], rest);
        ConcatOne(buffered);
        assert Concat([buffered] + rest) + Remainder(frames[1..], batchSize, [])
            == buffered + (Concat(rest) + Remainder(frames[1..], batchSize, []));
      } else {
        FlushesReassemble(frames[1..], batchSize, buffered);
      }
      assert pending + Concat(frames) == buffered + Concat(frames[1..]);
    }
  }

  /** Every blob written in the loop holds at least `batchSize` bytes. */
  lemma {:induction false} FlushesAtLeastBatch(frames: seq<seq<bv8>>, batchSize: nat, pending: seq<bv8>)
    ensures forall k :: 0 <= k < |Flushes(frames, batchSize, pending)| ==> |Flushes(frames, batchSize, pending)[k]| >= batchSize
    decreases |frames|
  {
    if frames != [] {
      var buffered := pending + frames[0];
      if |buffered| >= batchSize {
        FlushesAtLeastBatch(frames[1..], batchSize, []);
      } else {
        FlushesAtLeastBatch(frames[1..], batchSize, buffered);
      }
    }
  }

  /** The buffer left after the loop holds fewer than `batchSize` bytes, or none. */
  lemma {:induction false} RemainderBelowBatch(frames: seq<seq<bv8>>, batchSize: nat, pending: seq<bv8>)
    requires |pending| < batchSize || pending == []
    ensures |Remainder(frames, batchSize, pending)| < batchSize || Remainder(frames, batchSize, pending) == []
    decreases |frames|
  {
    if frames != [] {
      var buffered := pending + frames[0];
      if |buffered| >= batchSize {
        RemainderBelowBatch(frames[1..], batchSize, []);
      } else {
        RemainderBelowBatch(frames[1..], batchSize, buffered);
      }
    }
  }

  /** A stream that ends normally is written out completely: the blobs concatenate to the body,
      every blob but the last holds at least `batchSize` bytes and the last one is not empty. */
  lemma CompletedStreamIsFile(body: Body, batchSize: nat)
    requires !body.failsAfter
    ensures Concat(StreamWrites(body, batchSize)) == Concat(body.frames)
    ensures var w := StreamWrites(body, batchSize);
      forall k :: 0 <= k < |w| - 1 ==> |w[k]| >= batchSize
    ensures var w := StreamWrites(body, batchSize);
      |w| > 0 ==> |w[|w| - 1]| > 0 || (|w[|w| - 1]| >= batchSize && batchSize == 0)
  {
    var flushes := Flushes(body.frames, batchSize, []);
    var rest := Remainder(body.frames, batchSize, []);
    FlushesReassemble(body.frames, batchSize, []);
    FlushesAtLeastBatch(body.frames, batchSize, []);
    if |rest| > 0 {
      ConcatAppend(flushes, [rest]);
      ConcatOne(rest);
    } else {
      assert rest == [];
      assert StreamWrites(body, batchSize) == flushes;
      assert Concat(flushes) + rest == Concat(flushes);
    }
  }

  /** A stream whose read fails has handed `write()` a prefix of the body, short of it by less than
      `batchSize`. Those blobs never reach the file: the writable is not closed, so the file keeps
      what it held before (`DownloadedFileContents`). */
  lemma FailedStreamLosesBuffer(body: Body, batchSize: nat)
    requires body.failsAfter
    ensures var written := Concat(StreamWrites(body, batchSize));
      && written <= Concat(body.frames)
      && (|Concat(body.frames)| - |written| < batchSize || written == Concat(body.frames))
  {
    var flushes := Flushes(body.frames, batchSize, []);
    FlushesReassemble(body.frames, batchSize, []);
    RemainderBelowBatch(body.frames, batchSize, []);
    assert StreamWrites(body, batchSize) == flushes + [] == flushes;
    assert Concat(flushes) + Remainder(body.frames, batchSize, []) == Concat(body.frames);
  }

  /** The progress bar ends at the number of bytes received when the size is known, and stays at
      zero otherwise; the writable is closed exactly when the stream ends normally; a fetch that is
      rejected or gives no body writes nothing. */
  lemma DownloadUrlProgress(fetched: Fetched, batchSize: nat)
    ensures var r := DownloadUrlSpec(fetched, batchSize);
      && (fetched.Streamed? && Tracked(fetched.contentLength) ==> r.progress == |Concat(fetched.body.frames)|)
      && (!(fetched.Streamed? && Tracked(fetched.contentLength)) ==> r.progress == 0)
      && (r.closed <==> fetched.Streamed? && !fetched.body.failsAfter)
      && (!fetched.Streamed? ==> r.writes == [])
  {
  }

  /** The file's contents once `download_url` is done, from what it held before (nothing when
      `getFileHandle` has just created it). A writable file stream keeps what is written to it in
      a swap file that replaces the file's contents only on `close()`, and `createWritable()`
      without `keepExistingData` starts that swap file empty (the WHATWG File System standard,
      `FileSystemWritableFileStream`). The catch of `download_url` neither closes nor aborts the
      writable, so an unclosed download leaves the file as it was. */
  function SavedFile(before: seq<bv8>, r: FileResult): seq<bv8>
  {
    if r.closed then Concat(r.writes) else before
  }

  /** After `download_url` the file holds exactly the body when the stream ended normally, and
      otherwise (fetch rejected, no body, a failed read) exactly what it held before. */
  lemma DownloadedFileContents(fetched: Fetched, batchSize: nat, before: seq<bv8>)
    ensures var after := SavedFile(before, DownloadUrlSpec(fetched, batchSize));
      && (fetched.Streamed? && !fetched.body.failsAfter ==> after == Concat(fetched.body.frames))
      && (!(fetched.Streamed? && !fetched.body.failsAfter) ==> after == before)
  {
    if fetched.Streamed? && !fetched.body.failsAfter {
      CompletedStreamIsFile(fetched.body, batchSize);
    }
  }

  // ---------------------------------------------------------------------------------------------
  // `download_single_file` and `download`.

  /** Where `download_single_file` saves an entry: `url.path.split('/')`, the last piece the file
      name and the pieces before it the directories, outermost first. */
  function Target(path: string): (r: (seq<string>, string))
    ensures '/' !in r.1
    ensures forall k :: 0 <= k < |r.0| ==> '/' !in r.0[k]
    ensures Join(r.0 + [r.1], '/') == path
  {
    var parts := Split(path, '/');
    SplitPiecesAreFree(path, '/');
    JoinSplit(path, '/');
    assert parts == parts[..|parts| - 1] + [parts[|parts| - 1]];
    (parts[..|parts| - 1], parts[|parts| - 1])
  }

  /** Directories and a file name without `/` are what `Target` gives back for their join. */
  lemma TargetOfJoin(dirs: seq<string>, name: string)
    requires forall k :: 0 <= k < |dirs| ==> '/' !in dirs[k]
    requires '/' !in name
    ensures Target(Join(dirs + [name], '/')) == (dirs, name)
  {
    var parts := dirs + [name];
    forall k | 0 <= k < |parts| ensures '/' !in parts[k] {
      if k < |dirs| {
        assert parts[k] == dirs[k];
      }
    }
    SplitJoin(parts, '/');
    assert parts[..|parts| - 1] == dirs;
  }

  /** A name `getDirectoryHandle` and `getFileHandle` accept: not empty, `.` or `..` (a name taken
      from `split('/')` never holds `/`); any other name is refused with a `TypeError`. */
  predicate ValidName(name: string)
  {
    name != "" && name != "." && name != ".."
  }

  /** The entries under the picked directory, each as its path of names from it. */
  datatype Tree = Tree(dirs: set<seq<string>>, files: set<seq<string>>)

  /** `getDirectoryHandle(name, {create: true})` for the directory at `path` rejects: its name is
      not valid, or a file of that name is in the way (`TypeMismatchError`). Otherwise it opens the
      directory, creating it when it is missing. */
  predicate DirRejects(tree: Tree, path: seq<string>)
    requires |path| > 0
  {
    !ValidName(path[|path| - 1]) || path in tree.files
  }

  /** `getFileHandle(name, {create: true})` for the file at `path` rejects: its name is not valid,
      or a directory of that name is in the way. Otherwise it opens the file, creating it empty
      when it is missing. */
  predicate FileRejects(tree: Tree, path: seq<string>)
    requires |path| > 0
  {
    !ValidName(path[|path| - 1]) || path in tree.dirs
  }

  /** The directory `dirs[m]`, at depth `m` of the walk, rejects. */
  predicate DirBlocked(tree: Tree, dirs: seq<string>, m: nat)
    requires m < |dirs|
  {
    DirRejects(tree, dirs[..m + 1])
  }

  /** Walking `getDirectoryHandle` down `dirs` from depth `k`: how deep the walk gets before a
      rejection (or `|dirs|`), and the tree with the directories it created. */
  function OpenDirs(dirs: seq<string>, k: nat, tree: Tree): (r: (nat, Tree))
    requires k <= |dirs|
    ensures k <= r.0 <= |dirs|
    decreases |dirs| - k
  {
    if k == |dirs| then (k, tree)
    else if DirRejects(tree, dirs[..k + 1]) then (k, tree)
    else OpenDirs(dirs, k + 1, tree.(dirs := tree.dirs + {dirs[..k + 1]}))
  }

  /** How saving one entry ends: a directory or the file could not be opened, which rejects
      `download_single_file`, or the body was streamed into the file. */
  datatype EntryOutcome = DirRejected | FileRejected | Saved(file: FileResult)

  /** One entry saved into the picked directory: the directories opened on the way down, each as
      its path from the picked directory; the directory and name of the file; and the outcome. */
  datatype EntryResult = EntryResult(chain: seq<seq<string>>, dir: seq<string>, name: string, outcome: EntryOutcome)

  /** What `download_single_file` does to `tree`: the specification of the method below. */
  function DownloadSingleFileSpec(entry: DownloadEntry, tree: Tree, fetched: Fetched): (EntryResult, Tree)
  {
    var (dirs, name) := Target(entry.path);
    var (depth, walked) := OpenDirs(dirs, 0, tree);
    var chain := seq(depth, k requires 0 <= k < depth => dirs[..k + 1]);
    if depth < |dirs| then (EntryResult(chain, dirs, name, DirRejected), walked)
    else if FileRejects(walked, dirs + [name]) then (EntryResult(chain, dirs, name, FileRejected), walked)
    else (EntryResult(chain, dirs, name, Saved(DownloadUrlSpec(fetched, BatchSize))),
          walked.(files := walked.files + {dirs + [name]}))
  }

  /** `download_single_file`: walks `getDirectoryHandle(part, {create: true})` down the entry's
      directories, opens the file and streams the body into it; the first handle that rejects
      ends it. */
  method DownloadSingleFile(entry: DownloadEntry, tree: Tree, fetched: Fetched) returns (result: EntryResult, after: Tree)
    ensures (result, after) == DownloadSingleFileSpec(entry, tree, fetched)
  {
    var (dirs, name) := Target(entry.path);
    var walked := tree;
    var chain: seq<seq<string>> := [];
    var k := 0;
    while k < |dirs|
      invariant k <= |dirs|
      invariant OpenDirs(dirs, k, walked) == OpenDirs(dirs, 0, tree)
      invariant |chain| == k
      invariant forall m :: 0 <= m < k ==> chain[m] == dirs[..m + 1]
    {
      if DirRejects(walked, dirs[..k + 1]) {
        break;
      }
      walked := walked.(dirs := walked.dirs + {dirs[..k + 1]});
      chain := chain + [dirs[..k + 1]];
      k := k + 1;
    }
    assert OpenDirs(dirs, 0, tree) == (k, walked);
    assert chain == seq(k, m requires 0 <= m < k => dirs[..m + 1]);
    if k < |dirs| {
      return EntryResult(chain, dirs, name, DirRejected), walked;
    }
    if FileRejects(walked, dirs + [name]) {
      return EntryResult(chain, dirs, name, FileRejected), walked;
    }
    var file := DownloadUrl(fetched, BatchSize);
    result := EntryResult(chain, dirs, name, Saved(file));
    after := walked.(files := walked.files + {dirs + [name]});
  }

  /** The walk from depth `k` gets exactly as deep as the first directory that rejects, adds only
      the directories it opened, and leaves the files alone. */
  lemma {:induction false} OpenDirsSpec(dirs: seq<string>, k: nat, tree: Tree)
    requires k <= |dirs|
    ensures var (d, t) := OpenDirs(dirs, k, tree);
      && t.files == tree.files
      && tree.dirs <= t.dirs
      && (forall p :: p in t.dirs && p !in tree.dirs ==> |p| <= |dirs|)
      && (forall m :: k <= m < d ==> !DirBlocked(tree, dirs, m))
      && (d < |dirs| ==> DirBlocked(tree, dirs, d))
    decreases |dirs| - k
  {
    if k < |dirs| && !DirRejects(tree, dirs[..k + 1]) {
      var next := tree.(dirs := tree.dirs + {dirs[..k + 1]});
      OpenDirsSpec(dirs, k + 1, next);
      var (d, t) := OpenDirs(dirs, k + 1, next);
      forall m | k <= m < d ensures !DirBlocked(tree, dirs, m) {
        if m > k {
          assert !DirBlocked(next, dirs, m);
        }
      }
      if d < |dirs| {
        assert DirBlocked(next, dirs, d);
      }
    }
  }

  /** An entry is saved exactly when every directory on its path opens and the file opens, and
      then the body streamed into the file is that of `download_url`. */
  lemma SingleFileSaved(entry: DownloadEntry, tree: Tree, fetched: Fetched)
    ensures var (r, _) := DownloadSingleFileSpec(entry, tree, fetched);
      && (r.outcome.Saved? <==>
            (forall m :: 0 <= m < |r.dir| ==> !DirBlocked(tree, r.dir, m))
            && !FileRejects(tree, r.dir + [r.name]))
      && (r.outcome.Saved? ==> r.outcome.file == DownloadUrlSpec(fetched, BatchSize))
  {
    var (dirs, name) := Target(entry.path);
    OpenDirsSpec(dirs, 0, tree);
    var (d, t) := OpenDirs(dirs, 0, tree);
    assert (dirs + [name])[|dirs + [name]| - 1] == name;
    assert dirs + [name] in t.dirs <==> dirs + [name] in tree.dirs;
  }

  /** The directories opened form a chain down the file's directory, each one segment deeper than
      the one before; all of them are opened unless a directory rejects; and the file's directory
      and name rebuild the entry's path. */
  lemma SingleFileLayout(entry: DownloadEntry, tree: Tree, fetched: Fetched)
    ensures var (r, _) := DownloadSingleFileSpec(entry, tree, fetched);
      && |r.chain| <= |r.dir|
      && (!r.outcome.DirRejected? ==> |r.chain| == |r.dir|)
      && (forall k :: 0 <= k < |r.chain| ==> r.chain[k] == r.dir[..k + 1])
      && (forall k :: 0 < k < |r.chain| ==> r.chain[k] == r.chain[k - 1] + [r.dir[k]])
      && Join(r.dir + [r.name], '/') == entry.path
  {
    var (dirs, name) := Target(entry.path);
    var (d, _) := OpenDirs(dirs, 0, tree);
    var (r, _) := DownloadSingleFileSpec(entry, tree, fetched);
    assert r.dir == dirs && r.name == name && |r.chain| == d;
    forall k | 0 < k < d ensures r.chain[k] == r.chain[k - 1] + [dirs[k]] {
      assert dirs[..k + 1] == dirs[..k] + [dirs[k]];
    }
  }

  /** Once an entry at `top` has been saved as a file, an entry at `top/name` cannot be: the
      directory it needs is a file. S3 can hold both keys, as `photos` and `photos/a.jpg`. */
  lemma FileBlocksFolder(top: string, name: string, tree: Tree, fetched: Fetched, u: string, v: string)
    requires '/' !in top && '/' !in name && ValidName(top)
    requires [top] !in tree.dirs
    ensures var (first, after) := DownloadSingleFileSpec(DownloadEntry(top, u), tree, fetched);
      && first.outcome.Saved?
      && DownloadSingleFileSpec(DownloadEntry(top + "/" + name, v), after, fetched).0.outcome == DirRejected
  {
    var none: seq<string> := [];
    TargetOfJoin(none, top);
    assert none + [top] == [top];
    assert OpenDirs(none, 0, tree) == (0, tree);
    assert !FileRejects(tree, none + [top]);
    var (first, after) := DownloadSingleFileSpec(DownloadEntry(top, u), tree, fetched);
    assert [top] in after.files;
    TargetOfJoin([top], name);
    assert [top] + [name] == [top, name];
    assert Join([top, name], '/') == top + "/" + name;
    assert [top][..1] == [top];
    assert DirRejects(after, [top]);
  }

  /** The browser's answer to the directory picker. */
  datatype PickerResult = Picked | PickerAborted | PickerFailed

  /** What the browser offers: no `showDirectoryPicker`, with the button the user presses on the
      compatibility popup (`true` for "Continue Downloading"), or the picker and its answer. */
  datatype Environment = NoPicker(continueChosen: bool) | Picker(result: PickerResult)

  /** How `download` ends: the fallback trace, the popup cancelled, the picker aborted or failed
      (an alert, nothing saved), or each entry saved into the picked directory. */
  datatype DownloadRun =
    | Flattened(trace: seq<Event>)
    | PopupCancelled
    | SelectionAborted
    | SelectionFailed
    | Hierarchical(entries: seq<EntryResult>)

  /** The entries from `i` on saved one after another into the directory, each finding the tree
      the ones before it left. */
  function SaveAll(entries: seq<DownloadEntry>, i: nat, tree: Tree, fetches: nat -> Fetched): seq<EntryResult>
    requires i <= |entries|
    decreases |entries| - i
  {
    if i == |entries| then []
    else
      var (r, after) := DownloadSingleFileSpec(entries[i], tree, fetches(i));
      [r] + SaveAll(entries, i + 1, after, fetches)
  }

  /** `download`: picks the mode, then runs it. In the hierarchical mode every entry gets its own
      fetch result and the picked directory, which starts as `picked`, is shared: what one entry
      creates can make another one's handle reject. The browser runs up to five entries at once;
      here they run in list order. */
  method Download(entries: seq<DownloadEntry>, env: Environment, picked: Tree, fetches: nat -> Fetched)
    returns (run: DownloadRun)
    ensures env == NoPicker(false) ==> run == PopupCancelled
    ensures env == Picker(PickerAborted) ==> run == SelectionAborted
    ensures env == Picker(PickerFailed) ==> run == SelectionFailed
    ensures env == NoPicker(true) ==>
      && run.Flattened? && |run.trace| == 2 * |entries|
      && forall i :: 0 <= i < |entries| ==>
           run.trace[2 * i] == Click(entries[i].token, FlatName(entries[i].path))
           && run.trace[2 * i + 1] == Sleep(FallbackDelay)
    ensures env == Picker(Picked) ==> run == Hierarchical(SaveAll(entries, 0, picked, fetches))
  {
    match env
    case NoPicker(continueChosen) =>
      if continueChosen {
        var trace := FallbackDownload(entries);
        return Flattened(trace);
      }
      return PopupCancelled;
    case Picker(result) =>
      if result == PickerAborted {
        return SelectionAborted;
      } else if result == PickerFailed {
        return SelectionFailed;
      }
      var results: seq<EntryResult> := [];
      var tree := picked;
      for i := 0 to |entries|
        invariant results + SaveAll(entries, i, tree, fetches) == SaveAll(entries, 0, picked, fetches)
      {
        var r, after := DownloadSingleFile(entries[i], tree, fetches(i));
        assert results + ([r] + SaveAll(entries, i + 1, after, fetches))
            == (results + [r]) + SaveAll(entries, i + 1, after, fetches);
        results := results + [r];
        tree := after;
      }
      assert SaveAll(entries, |entries|, tree, fetches) == [];
      assert results + [] == results;
      return Hierarchical(results);
  }

  /** The hierarchical mode gives one result per entry, in order: each saves into the entry's own
      directory and name, and a saved entry holds what `download_url` did with its own fetch. */
  lemma {:induction false} SaveAllEntries(entries: seq<DownloadEntry>, i: nat, tree: Tree, fetches: nat -> Fetched)
    requires i <= |entries|
    ensures var rs := SaveAll(entries, i, tree, fetches);
      && |rs| == |entries| - i
      && forall k :: 0 <= k < |rs| ==>
           && (rs[k].dir, rs[k].name) == Target(entries[i + k].path)
           && (rs[k].outcome.Saved? ==> rs[k].outcome.file == DownloadUrlSpec(fetches(i + k), BatchSize))
    decreases |entries| - i
  {
    if i < |entries| {
      var (r, after) := DownloadSingleFileSpec(entries[i], tree, fetches(i));
      assert (r.dir, r.name) == Target(entries[i].path);
      SaveAllEntries(entries, i + 1, after, fetches);
      var rest := SaveAll(entries, i + 1, after, fetches);
      var rs := [r] + rest;
      assert SaveAll(entries, i, tree, fetches) == rs;
      forall k | 0 < k < |rs|
        ensures (rs[k].dir, rs[k].name) == Target(entries[i + k].path)
        ensures rs[k].outcome.Saved? ==> rs[k].outcome.file == DownloadUrlSpec(fetches(i + k), BatchSize)
      {
        assert rs[k] == rest[k - 1];
        assert i + k == (i + 1) + (k - 1);
      }
    }
  }
}
