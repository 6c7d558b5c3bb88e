/** The server's object paths: `parse_obj_path` and the `relative_to` of `get_signed_url`, on
    POSIX `pathlib` paths. A path's `parts` are its anchor (`/`, or `//` for exactly two leading
    slashes), then its `/`-separated pieces without the empty ones and without `.`; `as_posix` of
    a relative path is its parts joined with `/`, or `.` when there are none. */
module S3Paths {
  import opened Results
  import opened Text

  /** The exceptions the path code raises: `parts[0]` of an empty path, and `relative_to` of a
      path that is not below the base. */
  datatype PathError = IndexError | ValueError

  /** A piece `pathlib` drops: empty (between two slashes, or at an end) or `.`. */
  predicate Dropped(piece: string)
  {
    piece == "" || piece == "."
  }

  /** A piece that survives as a part of its own: not dropped and without `/`. */
  predicate Normal(piece: string)
  {
    !Dropped(piece) && '/' !in piece
  }

  /** The pieces `pathlib` keeps, in order. */
  function Kept(pieces: seq<string>): (r: seq<string>)
    ensures |r| <= |pieces|
  {
    if pieces == [] then []
    else if Dropped(pieces[0]) then Kept(pieces[1..])
    else [pieces[0]] + Kept(pieces[1..])
  }

  /** The anchor of a POSIX path: `//` for exactly two leading slashes, `/` for one or three and
      more, none for a relative path. */
  function Anchor(p: string): string
  {
    if |p| >= 2 && p[0] == '/' && p[1] == '/' && (|p| == 2 || p[2] != '/') then "//"
    else if |p| >= 1 && p[0] == '/' then "/"
    else ""
  }

  /** `Path(p).parts`. */
  function Parts(p: string): seq<string>
  {
    (if Anchor(p) == "" then [] else [Anchor(p)]) + Kept(Split(p, '/'))
  }

  /** `as_posix()` of a relative path with the given parts. */
  function AsPosix(rel: seq<string>): string
  {
    if rel == [] then "." else Join(rel, '/')
  }

  /** `parse_obj_path`: the first part is the bucket, the path relative to it the key. A path
      without parts (`""`, `"."`, `"./"`) has no `parts[0]`. */
  function ParseObjPath(p: string): Result<(string, string), PathError>
  {
    var parts := Parts(p);
    if parts == [] then Failure(IndexError) else Success((parts[0], AsPosix(parts[1..])))
  }

  /** `Path(p).parent.parts`: the parts without the last, except that an anchor is its own parent. */
  function ParentParts(parts: seq<string>): seq<string>
  {
    if parts == [] then []
    else if |parts| == 1 && (parts[0] == "/" || parts[0] == "//") then parts
    else parts[..|parts| - 1]
  }

  /** `Path(p).relative_to(base).as_posix()` for a base given by its parts. */
  function RelativeTo(p: string, base: seq<string>): Result<string, PathError>
  {
    var parts := Parts(p);
    if base <= parts then Success(AsPosix(parts[|base|..])) else Failure(ValueError)
  }

  // ---------------------------------------------------------------------------------------------
  // Lemmas.

  lemma {:induction false} KeptAppend(a: seq<string>, b: seq<string>)
    ensures Kept(a + b) == Kept(a) + Kept(b)
    decreases |a|
  {
    if a == [] {
      assert a + b == b;
    } else {
      KeptAppend(a[1..], b);
      assert (a + b)[0] == a[0] && (a + b)[1..] == a[1..] + b;
    }
  }

  lemma {:induction false} KeptNormal(pieces: seq<string>)
    requires forall k :: 0 <= k < |pieces| ==> Normal(pieces[k])
    ensures Kept(pieces) == pieces
    decreases |pieces|
  {
    if pieces != [] {
      KeptNormal(pieces[1..]);
    }
  }

  /** The kept pieces are pieces of the input, and none is dropped. */
  lemma {:induction false} KeptMembers(pieces: seq<string>)
    ensures forall k :: 0 <= k < |Kept(pieces)| ==> !Dropped(Kept(pieces)[k]) && Kept(pieces)[k] in pieces
    decreases |pieces|
  {
    if pieces != [] {
      KeptMembers(pieces[1..]);
      var rest := Kept(pieces[1..]);
      forall k | 0 <= k < |rest| ensures rest[k] in pieces {
        assert rest[k] in pieces[1..];
      }
      if !Dropped(pieces[0]) {
        var r := [pieces[0]] + rest;
        assert Kept(pieces) == r;
        forall k | 1 <= k < |r| ensures r[k] == rest[k - 1] {
        }
      }
    }
  }

  /** No part but the anchor holds a `/`. */
  lemma KeptPiecesFree(p: string)
    ensures forall k :: 0 <= k < |Kept(Split(p, '/'))| ==> Normal(Kept(Split(p, '/'))[k])
  {
    SplitPiecesAreFree(p, '/');
    var pieces := Split(p, '/');
    KeptMembers(pieces);
    forall k | 0 <= k < |Kept(pieces)| ensures Normal(Kept(pieces)[k]) {
      var i :| 0 <= i < |pieces| && pieces[i] == Kept(pieces)[k];
    }
  }

  /** Normal pieces joined with `/` have those pieces as their parts. */
  lemma PartsOfJoin(segs: seq<string>)
    requires |segs| >= 1
    requires forall k :: 0 <= k < |segs| ==> Normal(segs[k])
    ensures Parts(Join(segs, '/')) == segs
  {
    SplitJoin(segs, '/');
    KeptNormal(segs);
    JoinStartsWithFirst(segs);
  }

  /** The first character of a join is the first character of its first piece. */
  lemma JoinStartsWithFirst(segs: seq<string>)
    requires |segs| >= 1 && |segs[0]| >= 1
    ensures |Join(segs, '/')| >= 1 && Join(segs, '/')[0] == segs[0][0]
  {
    if |segs| > 1 {
      assert Join(segs, '/') == segs[0] + [('/')] + Join(segs[1..], '/');
    }
  }

  /** The last character of a join is the last character of its last piece. */
  lemma {:induction false} JoinEndsWithLast(segs: seq<string>)
    requires |segs| >= 1 && |segs[|segs| - 1]| >= 1
    ensures var j := Join(segs, '/'); |j| >= 1 && j[|j| - 1] == segs[|segs| - 1][|segs[|segs| - 1]| - 1]
    decreases |segs|
  {
    if |segs| > 1 {
      JoinEndsWithLast(segs[1..]);
      assert Join(segs, '/') == segs[0] + [('/')] + Join(segs[1..], '/');
    }
  }

  /** `parse_obj_path` of a bucket name followed by normal segments gives the bucket back, and the
      segments joined with `/` as the key (`.` when there are none). */
  lemma ParseJoin(bucket: string, segs: seq<string>)
    requires Normal(bucket)
    requires forall k :: 0 <= k < |segs| ==> Normal(segs[k])
    ensures ParseObjPath(Join([bucket] + segs, '/')) == Success((bucket, AsPosix(segs)))
  {
    var all := [bucket] + segs;
    forall k | 0 <= k < |all| ensures Normal(all[k]) {
      if k > 0 {
        assert all[k] == segs[k - 1];
      }
    }
    PartsOfJoin(all);
    assert all[1..] == segs;
  }

  /** `parse_obj_path` raises exactly for the paths without parts: no anchor and nothing but empty
      and `.` pieces. */
  lemma ParseFails(p: string)
    ensures ParseObjPath(p).Failure? <==>
      Anchor(p) == "" && forall k :: 0 <= k < |Split(p, '/')| ==> Dropped(Split(p, '/')[k])
  {
    var pieces := Split(p, '/');
    if Anchor(p) != "" {
      assert Parts(p)[0] == Anchor(p);
    } else if Kept(pieces) == [] {
      forall k | 0 <= k < |pieces| ensures Dropped(pieces[k]) {
        KeptEmpty(pieces, k);
      }
    } else {
      assert Parts(p) == Kept(pieces);
      KeptMembers(pieces);
      var i :| 0 <= i < |pieces| && pieces[i] == Kept(pieces)[0];
      assert !Dropped(Split(p, '/')[i]);
    }
  }

  lemma {:induction false} KeptEmpty(pieces: seq<string>, k: nat)
    requires Kept(pieces) == [] && k < |pieces|
    ensures Dropped(pieces[k])
    decreases k
  {
    if k > 0 {
      KeptEmpty(pieces[1..], k - 1);
    }
  }

  /** The key `parse_obj_path` gives is never empty and never ends with `/`; so `get_signed_url` and
      `prepare_delete` always take the `_key + '/'` branch when they normalise a folder key. A key
      is `.` or a join of normal pieces. */
  lemma ParsedKeyShape(p: string)
    requires ParseObjPath(p).Success?
    ensures var key := ParseObjPath(p).value.1; |key| >= 1 && key[|key| - 1] != '/'
  {
    var parts := Parts(p);
    var rest := parts[1..];
    if rest != [] {
      KeptPiecesFree(p);
      var kept := Kept(Split(p, '/'));
      assert rest[|rest| - 1] == kept[|kept| - 1];
      JoinEndsWithLast(rest);
    }
  }

  /** A trailing `/` does not change a relative path's parts. */
  lemma PartsTrailingSlash(p: string)
    requires |p| >= 1 && p[0] != '/'
    ensures Parts(p + "/") == Parts(p)
  {
    SplitConcat(p, '/', "");
    assert p + "/" == p + ['/'] + "";
    KeptAppend(Split(p, '/'), [""]);
    assert Kept([""]) == [];
  }

  /** The path `get_signed_url` gives a file it finds under a folder: for a folder key made of the
      normal pieces `folder` and a listed key `folder/rest`, the key relative to the folder's parent
      is the folder's last piece followed by the kept pieces of `rest`. A download therefore
      recreates the selected folder itself, and the files below it. */
  lemma ListedPath(folder: seq<string>, rest: string)
    requires |folder| >= 1
    requires forall k :: 0 <= k < |folder| ==> Normal(folder[k])
    ensures var folderPath := Join(folder, '/') + "/";
      RelativeTo(folderPath + rest, ParentParts(Parts(folderPath)))
        == Success(AsPosix([folder[|folder| - 1]] + Kept(Split(rest, '/'))))
  {
    var folderPath := Join(folder, '/') + "/";
    FolderPathParts(folder);
    ListedKeyParts(folder, rest);
    assert folderPath + rest == Join(folder, '/') + "/" + rest;
    RelativeToParent(folderPath + rest, folder, Kept(Split(rest, '/')));
  }

  /** A path whose parts extend a folder's parts, taken relative to the folder's parent: the
      folder's last part, then the extension. */
  lemma RelativeToParent(p: string, folder: seq<string>, tail: seq<string>)
    requires |folder| >= 1 && '/' !in folder[0]
    requires Parts(p) == folder + tail
    ensures RelativeTo(p, ParentParts(folder)) == Success(AsPosix([folder[|folder| - 1]] + tail))
  {
    ParentPrefix(folder, tail);
  }

  /** The parent of a non-anchor path is a prefix of anything below the path, which leaves the
      path's last part and what follows. */
  lemma ParentPrefix(folder: seq<string>, tail: seq<string>)
    requires |folder| >= 1 && '/' !in folder[0]
    ensures ParentParts(folder) <= folder + tail
    ensures (folder + tail)[|ParentParts(folder)|..] == [folder[|folder| - 1]] + tail
  {
    var m := |folder|;
    assert folder[0] != "/" && folder[0] != "//" by {
      assert "/"[0] == '/' && "//"[0] == '/';
    }
    assert ParentParts(folder) == folder[..m - 1];
    assert (folder + tail)[..m - 1] == folder[..m - 1];
  }

  /** A folder key followed by `/` has the folder's pieces as its parts. */
  lemma FolderPathParts(folder: seq<string>)
    requires |folder| >= 1
    requires forall k :: 0 <= k < |folder| ==> Normal(folder[k])
    ensures Parts(Join(folder, '/') + "/") == folder
  {
    PartsOfJoin(folder);
    JoinStartsWithFirst(folder);
    PartsTrailingSlash(Join(folder, '/'));
  }

  /** A key listed under the folder: the folder's pieces, then the kept pieces of the rest. */
  lemma ListedKeyParts(folder: seq<string>, rest: string)
    requires |folder| >= 1
    requires forall k :: 0 <= k < |folder| ==> Normal(folder[k])
    ensures Parts(Join(folder, '/') + "/" + rest) == folder + Kept(Split(rest, '/'))
  {
    var key := Join(folder, '/');
    var full := key + "/" + rest;
    assert full == key + ['/'] + rest;
    SplitConcat(key, '/', rest);
    SplitJoin(folder, '/');
    KeptAppend(folder, Split(rest, '/'));
    KeptNormal(folder);
    JoinStartsWithFirst(folder);
    assert full[0] == key[0];
    assert Anchor(full) == "";
  }
}
