/** Turning what the user hands the browser into the list of files `upload` receives: items dropped
    on the page (`uploadDroppedItems`, which walks dropped folders with a first-in first-out work
    list, reading each folder with `readDirEntries` and naming each file with `getFileFromEntry`),
    and the files of a folder picked with the folder picker (`uploadSelectedFolder`). */
module Drop {
  import opened Text
  import Upload

  /** A `FileSystemEntry`: a file, with its `fullPath` (`/` followed by its path from the dropped
      item, or empty) and the `File` it gives; or a directory, given by the batches its reader's
      `readEntries` resolves with, call after call. A call past the last batch gets no entries. */
  datatype Entry =
    | FileEntry(fullPath: string, file: Upload.FileInfo)
    | DirEntry(batches: seq<Batch>)

  /** What one `readEntries` call resolves with. */
  datatype Batch = Batch(entries: seq<Entry>)

  /** What the `k`-th `readEntries` call on a directory's reader gives. */
  function ReadBatch(batches: seq<Batch>, k: nat): seq<Entry>
  {
    if k < |batches| then batches[k].entries else []
  }

  /** What `readDirEntries` collects: the batches in order, up to the first empty one. */
  function ReadAll(batches: seq<Batch>): seq<Entry>
  {
    if batches == [] || batches[0].entries == [] then [] else batches[0].entries + ReadAll(batches[1..])
  }

  /** `readDirEntries`: calls `readEntries` until a call gives no entries, appending every batch. */
  method ReadDirEntries(batches: seq<Batch>) returns (entries: seq<Entry>)
    ensures entries == ReadAll(batches)
  {
    entries := [];
    var k := 0;
    var read := ReadBatch(batches, k);
    while |read| > 0
      invariant k <= |batches|
      invariant read == ReadBatch(batches, k)
      invariant entries + ReadAll(batches[k..]) == ReadAll(batches)
      decreases |batches| - k
    {
      assert batches[k..][1..] == batches[k + 1..];
      entries := entries + read;
      k := k + 1;
      read := ReadBatch(batches, k);
    }
    if k < |batches| {
      assert batches[k..][0].entries == [];
    }
  }

  /** Index of the first empty batch, or the number of batches. */
  function FirstEmpty(batches: seq<Batch>): (m: nat)
    ensures m <= |batches|
    ensures forall k :: 0 <= k < m ==> batches[k].entries != []
    ensures m < |batches| ==> batches[m].entries == []
  {
    if batches == [] || batches[0].entries == [] then 0 else 1 + FirstEmpty(batches[1..])
  }

  /** The entries of each batch. */
  function BatchEntries(batches: seq<Batch>): seq<seq<Entry>>
  {
    seq(|batches|, k requires 0 <= k < |batches| => batches[k].entries)
  }

  /** `readDirEntries` returns the batches before the first empty one, concatenated in order: it
      keeps reading until an empty batch, and reads nothing after it. */
  lemma {:induction false} ReadAllIsPrefix(batches: seq<Batch>)
    ensures ReadAll(batches) == Concat(BatchEntries(batches[..FirstEmpty(batches)]))
  {
    if batches != [] && batches[0].entries != [] {
      ReadAllIsPrefix(batches[1..]);
      var m := FirstEmpty(batches);
      assert BatchEntries(batches[..m])[1..] == BatchEntries(batches[1..][..m - 1]);
    } else {
      assert BatchEntries(batches[..0]) == [];
    }
  }

  /** `getFileFromEntry`'s name: `fullPath` without its leading `/` when `fullPath` is not empty,
      otherwise the file's own name. */
  function EntryFileName(fullPath: string, fileName: string): (name: string)
    ensures |fullPath| > 0 ==> fullPath == [fullPath[0]] + name
    ensures |fullPath| == 0 ==> name == fileName
  {
    if |fullPath| > 0 then fullPath[1..] else fileName
  }

  /** `getFileFromEntry`: the entry's `File`, renamed. */
  function FileFromEntry(fullPath: string, file: Upload.FileInfo): Upload.FileInfo
  {
    Upload.FileInfo(EntryFileName(fullPath, file.name), file.size)
  }

  // Sizes, for termination of the work list.

  function EntrySize(e: Entry): (s: nat)
    ensures s >= 1
    decreases e
  {
    match e
    case FileEntry(_, _) => 1
    case DirEntry(batches) => 1 + BatchesSize(batches)
  }

  function BatchesSize(batches: seq<Batch>): nat
    decreases batches
  {
    if batches == [] || batches[0].entries == [] then 0 else ListSize(batches[0].entries) + BatchesSize(batches[1..])
  }

  function ListSize(es: seq<Entry>): nat
    decreases es
  {
    if es == [] then 0 else EntrySize(es[0]) + ListSize(es[1..])
  }

  lemma {:induction false} ListSizeAppend(a: seq<Entry>, b: seq<Entry>)
    ensures ListSize(a + b) == ListSize(a) + ListSize(b)
    decreases |a|
  {
    if a != [] {
      ListSizeAppend(a[1..], b);
      assert (a + b)[1..] == a[1..] + b;
    } else {
      assert a + b == b;
    }
  }

  lemma {:induction false} ReadAllSize(batches: seq<Batch>)
    ensures ListSize(ReadAll(batches)) == BatchesSize(batches)
    decreases |batches|
  {
    if batches != [] && batches[0].entries != [] {
      ReadAllSize(batches[1..]);
      ListSizeAppend(batches[0].entries, ReadAll(batches[1..]));
    }
  }

  // The files in a tree of entries.

  /** The files under an entry, named as `getFileFromEntry` names them, depth first. */
  function Leaves(e: Entry): seq<Upload.FileInfo>
    decreases e
  {
    match e
    case FileEntry(fullPath, file) => [FileFromEntry(fullPath, file)]
    case DirEntry(batches) => BatchesLeaves(batches)
  }

  function BatchesLeaves(batches: seq<Batch>): seq<Upload.FileInfo>
    decreases batches
  {
    if batches == [] || batches[0].entries == [] then [] else ListLeaves(batches[0].entries) + BatchesLeaves(batches[1..])
  }

  function ListLeaves(es: seq<Entry>): seq<Upload.FileInfo>
    decreases es
  {
    if es == [] then [] else Leaves(es[0]) + ListLeaves(es[1..])
  }

  lemma {:induction false} ListLeavesAppend(a: seq<Entry>, b: seq<Entry>)
    ensures ListLeaves(a + b) == ListLeaves(a) + ListLeaves(b)
    decreases |a|
  {
    if a != [] {
      ListLeavesAppend(a[1..], b);
      assert (a + b)[1..] == a[1..] + b;
    } else {
      assert a + b == b;
    }
  }

  lemma {:induction false} ReadAllLeaves(batches: seq<Batch>)
    ensures ListLeaves(ReadAll(batches)) == BatchesLeaves(batches)
    decreases |batches|
  {
    if batches != [] && batches[0].entries != [] {
      ReadAllLeaves(batches[1..]);
      ListLeavesAppend(batches[0].entries, ReadAll(batches[1..]));
    }
  }

  /** What the work list of `uploadDroppedItems` produces from `work`: the specification of the
      method below. The first entry is taken off the front; a file is named and output, a
      directory's entries are appended at the back. */
  function Drain(work: seq<Entry>): seq<Upload.FileInfo>
    decreases ListSize(work)
  {
    if work == [] then []
    else
      match work[0]
      case FileEntry(fullPath, file) => [FileFromEntry(fullPath, file)] + Drain(work[1..])
      case DirEntry(batches) =>
        DrainStep(work);
        Drain(work[1..] + ReadAll(batches))
  }

  /** Taking a directory off the work list and appending what it holds shrinks the work list. */
  lemma DrainStep(work: seq<Entry>)
    requires work != [] && work[0].DirEntry?
    ensures ListSize(work[1..] + ReadAll(work[0].batches)) < ListSize(work)
  {
    ListSizeAppend(work[1..], ReadAll(work[0].batches));
    ReadAllSize(work[0].batches);
  }

  /** `uploadDroppedItems`' work list: until it is empty, shift its first entry; a file entry is
      turned into a `File` by `getFileFromEntry` and appended to `file_list`, a directory entry
      has all its entries read and pushed at the back. The list is then handed to `upload`. */
  method UploadDroppedItems(items: seq<Entry>) returns (files: seq<Upload.FileInfo>)
    ensures files == Drain(items)
  {
    files := [];
    var work := items;
    while |work| > 0
      invariant files + Drain(work) == Drain(items)
      decreases ListSize(work)
    {
      var entry := work[0];
      if entry.FileEntry? {
        var f := FileFromEntry(entry.fullPath, entry.file);
        files := files + [f];
        work := work[1..];
      } else {
        DrainStep(work);
        var children := ReadDirEntries(entry.batches);
        work := work[1..] + children;
      }
    }
  }

  /** The work list outputs every file in the dropped trees exactly as often as it occurs there,
      and nothing else; only the order (breadth first) differs from a depth-first walk. */
  lemma {:induction false} DrainFindsAllFiles(work: seq<Entry>)
    ensures multiset(Drain(work)) == multiset(ListLeaves(work))
    decreases ListSize(work)
  {
    if work != [] {
      assert work == [work[0]] + work[1..];
      ListLeavesAppend([work[0]], work[1..]);
      assert ListLeaves([work[0]]) == Leaves(work[0]) by {
        assert [work[0]][1..] == [];
      }
      match work[0]
      case FileEntry(_, _) =>
        DrainFindsAllFiles(work[1..]);
      case DirEntry(batches) =>
        DrainStep(work);
        DrainFindsAllFiles(work[1..] + ReadAll(batches));
        ListLeavesAppend(work[1..], ReadAll(batches));
        ReadAllLeaves(batches);
    }
  }

  /** Dropped files with no folders among them come out in the order they were dropped. */
  lemma {:induction false} DrainFilesInOrder(work: seq<Entry>)
    requires forall k :: 0 <= k < |work| ==> work[k].FileEntry?
    ensures |Drain(work)| == |work|
    ensures forall k :: 0 <= k < |work| ==> Drain(work)[k] == FileFromEntry(work[k].fullPath, work[k].file)
    decreases |work|
  {
    if work != [] {
      DrainFilesInOrder(work[1..]);
    }
  }

  // `uploadSelectedFolder`.

  /** A `File` of the folder picker's selection: its name, its `webkitRelativePath` (the path from
      the picked folder, or empty) and its size. */
  datatype SelectedFile = SelectedFile(name: string, relativePath: string, size: nat)

  /** The name `uploadSelectedFolder` gives a picked file: its relative path when that is not empty,
      otherwise its name. */
  function SelectedName(f: SelectedFile): (name: string)
    ensures |f.relativePath| > 0 ==> name == f.relativePath
    ensures |f.relativePath| == 0 ==> name == f.name
  {
    if |f.relativePath| > 0 then f.relativePath else f.name
  }

  /** `uploadSelectedFolder`: every picked file, in order, renamed; the list is handed to `upload`. */
  method UploadSelectedFolder(folder: seq<SelectedFile>) returns (files: seq<Upload.FileInfo>)
    ensures |files| == |folder|
    ensures forall i :: 0 <= i < |folder| ==> files[i] == Upload.FileInfo(SelectedName(folder[i]), folder[i].size)
  {
    files := [];
    for i := 0 to |folder|
      invariant |files| == i
      invariant forall k :: 0 <= k < i ==> files[k] == Upload.FileInfo(SelectedName(folder[k]), folder[k].size)
    {
      files := files + [Upload.FileInfo(SelectedName(folder[i]), folder[i].size)];
    }
  }

  /** Dropping a folder and picking it name a file the same way: a dropped entry at `/` + `p` and a
      picked file with relative path `p` are both uploaded as `p`. */
  lemma DropAndPickAgree(p: string, file: Upload.FileInfo, picked: SelectedFile)
    requires |p| > 0 && picked.relativePath == p && picked.size == file.size
    ensures FileFromEntry("/" + p, file) == Upload.FileInfo(SelectedName(picked), picked.size)
  {
    assert ("/" + p)[1..] == p;
  }
}
