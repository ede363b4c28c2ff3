/**
 * What the tool promises about its output, stated over the pure model:
 * pruning is total, both stages keep the same files, every block is well
 * formed, unreadable files leave nothing behind, and the document opens
 * with the tree.
 */
module Properties {
  import opened Wrappers
  import opened IgnoreRules
  import opened ProjectTree
  import opened TreeListing
  import opened Content

  /** `e` is a retained-looking file found below `d`, whose own route is `pre`. */
  ghost predicate Beneath(d: Dir, pre: seq<string>, e: Located) {
    && |pre| <= |e.route|
    && e.route[..|pre|] == pre
    && InTree(d, e.route[|pre|..], e.file)
    && (forall k :: |pre| <= k < |e.route| ==> KeepDir(e.route[k]))
    && KeepFile(e.file.name)
  }

  lemma {:induction false} RetainedFilesSound(fs: seq<File>, route: seq<string>)
    ensures forall e :: e in RetainedFiles(fs, route) ==>
      e.route == route && e.file in fs && KeepFile(e.file.name)
  {
    if fs != [] {
      RetainedFilesSound(fs[..|fs| - 1], route);
    }
  }

  lemma {:induction false} RetainedSound(d: Dir, pre: seq<string>)
    ensures forall e :: e in Retained(d, pre) ==> Beneath(d, pre, e)
    decreases d
  {
    RetainedFilesSound(d.files, pre);
    RetainedForestSound(d.subdirs, pre);
    forall e | e in Retained(d, pre) ensures Beneath(d, pre, e) {
      if e in RetainedFiles(d.files, pre) {
        assert e.route[|pre|..] == [];
      } else {
        assert e in RetainedForest(d.subdirs, pre);
        var s :| s in d.subdirs && KeepDir(s.name) && Beneath(s, pre + [s.name], e);
        BeneathThroughSubdir(d, pre, s, e);
      }
    }
  }

  /** A file below an unpruned subdirectory `s` of `d` lies below `d`. */
  lemma BeneathThroughSubdir(d: Dir, pre: seq<string>, s: Dir, e: Located)
    requires s in d.subdirs && KeepDir(s.name) && Beneath(s, pre + [s.name], e)
    ensures Beneath(d, pre, e)
  {
    var rest := e.route[|pre|..];
    assert e.route[..|pre| + 1] == pre + [s.name];
    assert e.route[..|pre|] == (pre + [s.name])[..|pre|] == pre;
    assert rest[0] == s.name;
    assert rest[1..] == e.route[|pre| + 1..];
    assert InTree(d, rest, e.file);
  }

  lemma {:induction false} RetainedForestSound(ds: seq<Dir>, pre: seq<string>)
    ensures forall e :: e in RetainedForest(ds, pre) ==>
      exists s :: s in ds && KeepDir(s.name) && Beneath(s, pre + [s.name], e)
    decreases ds
  {
    if ds != [] {
      RetainedForestSound(ds[1..], pre);
      if KeepDir(ds[0].name) {
        RetainedSound(ds[0], pre + [ds[0].name]);
      }
      forall e | e in RetainedForest(ds, pre)
        ensures exists s :: s in ds && KeepDir(s.name) && Beneath(s, pre + [s.name], e)
      {
        if e !in RetainedForest(ds[1..], pre) {
          assert Beneath(ds[0], pre + [ds[0].name], e);
        } else {
          var s :| s in ds[1..] && KeepDir(s.name) && Beneath(s, pre + [s.name], e);
          assert s in ds;
        }
      }
    }
  }

  lemma {:induction false} RetainedFilesComplete(fs: seq<File>, route: seq<string>, f: File)
    requires f in fs && KeepFile(f.name)
    ensures Located(route, f) in RetainedFiles(fs, route)
  {
    if f != fs[|fs| - 1] {
      assert fs == fs[..|fs| - 1] + [fs[|fs| - 1]];
      RetainedFilesComplete(fs[..|fs| - 1], route, f);
    }
  }

  lemma {:induction false} RetainedForestIncludes(ds: seq<Dir>, pre: seq<string>, s: Dir, e: Located)
    requires s in ds && KeepDir(s.name) && e in Retained(s, pre + [s.name])
    ensures e in RetainedForest(ds, pre)
  {
    if ds[0] != s {
      RetainedForestIncludes(ds[1..], pre, s, e);
    }
  }

  lemma {:induction false} RetainedComplete(d: Dir, pre: seq<string>, rest: seq<string>, f: File)
    requires InTree(d, rest, f)
    requires forall k :: 0 <= k < |rest| ==> KeepDir(rest[k])
    requires KeepFile(f.name)
    ensures Located(pre + rest, f) in Retained(d, pre)
    decreases |rest|
  {
    if rest == [] {
      assert pre + rest == pre;
      RetainedFilesComplete(d.files, pre, f);
    } else {
      var s :| s in d.subdirs && s.name == rest[0] && InTree(s, rest[1..], f);
      RetainedComplete(s, pre + [s.name], rest[1..], f);
      assert pre + [s.name] + rest[1..] == pre + rest;
      RetainedForestIncludes(d.subdirs, pre, s, Located(pre + rest, f));
    }
  }

  /**
   * Pruning is total and the file rule is exact: a file of the tree reaches
   * the content stage iff no directory on its route is an ignored one and
   * the file itself is kept by name and extension.
   */
  lemma RetainedIff(root: Dir, route: seq<string>, f: File)
    ensures Located(route, f) in Retained(root, []) <==>
      && InTree(root, route, f)
      && (forall k :: 0 <= k < |route| ==> route[k] !in IgnoreDirs)
      && f.name !in IgnoreFiles
      && Ext(f.name) !in IgnoreExtensions
  {
    RetainedSound(root, []);
    if InTree(root, route, f) && (forall k :: 0 <= k < |route| ==> KeepDir(route[k])) && KeepFile(f.name) {
      RetainedComplete(root, [], route, f);
      assert [] + route == route;
    }
    if Located(route, f) in Retained(root, []) {
      assert Beneath(root, [], Located(route, f));
      assert route[0..] == route;
    }
  }

  /** No retained file lies below a directory whose name is ignored, at any depth. */
  lemma NothingBeneathIgnored(root: Dir)
    ensures forall e, k :: e in Retained(root, []) && 0 <= k < |e.route| ==> e.route[k] !in IgnoreDirs
  {
    RetainedSound(root, []);
  }

  /** Every directory line after the first belongs to an unpruned directory, one level deeper or more. */
  lemma {:induction false} ListedDirsAreKept(d: Dir, depth: nat)
    ensures forall l :: l in Listing(d, depth)[1..] && l.DirLine? ==> KeepDir(l.name) && l.depth > depth
    decreases d
  {
    ListedFileLinesOnly(d.files, depth + 1);
    ListedForestDirsAreKept(d.subdirs, depth + 1);
    var ls := Listing(d, depth);
    assert ls[1..] == FileLines(d.files, depth + 1) + ListingForest(d.subdirs, depth + 1);
  }

  lemma {:induction false} ListedForestDirsAreKept(ds: seq<Dir>, depth: nat)
    ensures forall l :: l in ListingForest(ds, depth) && l.DirLine? ==> KeepDir(l.name) && l.depth >= depth
    decreases ds
  {
    if ds != [] {
      ListedForestDirsAreKept(ds[1..], depth);
      if KeepDir(ds[0].name) {
        ListedDirsAreKept(ds[0], depth);
        var ls := Listing(ds[0], depth);
        assert ls == [ls[0]] + ls[1..];
      }
    }
  }

  lemma {:induction false} ListedFileLinesOnly(fs: seq<File>, depth: nat)
    ensures forall l :: l in FileLines(fs, depth) ==> l.FileLine? && l.depth == depth && KeepFile(l.name)
  {
    if fs != [] {
      ListedFileLinesOnly(fs[..|fs| - 1], depth);
    }
  }

  /**
   * A directory line is emitted unconditionally: `d` opens its own listing,
   * and every unpruned subdirectory is listed one level deeper even when it
   * holds no kept file.
   */
  lemma KeptSubdirIsListed(d: Dir, depth: nat, s: Dir)
    requires s in d.subdirs && s.name !in IgnoreDirs
    ensures Listing(d, depth)[0] == DirLine(depth, d.name)
    ensures DirLine(depth + 1, s.name) in Listing(d, depth)
  {
    assert Listing(s, depth + 1)[0] == DirLine(depth + 1, s.name);
    ForestIncludesListing(d.subdirs, depth + 1, s, DirLine(depth + 1, s.name));
  }

  lemma {:induction false} ForestIncludesListing(ds: seq<Dir>, depth: nat, s: Dir, l: Line)
    requires s in ds && KeepDir(s.name) && l in Listing(s, depth)
    ensures l in ListingForest(ds, depth)
    decreases ds
  {
    if ds[0] != s {
      ForestIncludesListing(ds[1..], depth, s, l);
    }
  }

  /** `route` leads from `root` to a directory, and no directory on it has an ignored name. */
  ghost predicate UnprunedRoute(root: Dir, route: seq<string>) {
    Reached(root, route) && forall k :: 0 <= k < |route| ==> route[k] !in IgnoreDirs
  }

  /**
   * Pruning is total in the tree, and a directory is listed whether or not it
   * holds kept files: below the root's own line, a directory line at depth
   * `n` names the last directory of a route of `n` names from the root, and
   * the directory at the end of a route is listed exactly when no directory
   * on the route has an ignored name.
   */
  lemma ListedDirIff(root: Dir, n: nat, name: string)
    ensures DirLine(n, name) in Listing(root, 0)[1..] <==>
      exists route :: |route| == n > 0 && route[n - 1] == name && UnprunedRoute(root, route)
  {
    if DirLine(n, name) in Listing(root, 0)[1..] {
      var route := ListedDirReached(root, 0, DirLine(n, name));
      assert |route| == n > 0 && route[n - 1] == name && UnprunedRoute(root, route);
    }
    if exists route :: |route| == n > 0 && route[n - 1] == name && UnprunedRoute(root, route) {
      var route :| |route| == n > 0 && route[n - 1] == name && UnprunedRoute(root, route);
      ReachedDirIsListed(root, 0, route);
    }
  }

  /** The route from `d` to the directory a listed directory line names. */
  lemma {:induction false} ListedDirReached(d: Dir, depth: nat, l: Line) returns (route: seq<string>)
    requires l in Listing(d, depth)[1..] && l.DirLine?
    ensures route != [] && depth + |route| == l.depth && route[|route| - 1] == l.name
    ensures Reached(d, route)
    ensures forall k :: 0 <= k < |route| ==> KeepDir(route[k])
    decreases d
  {
    assert Listing(d, depth)[1..] == FileLines(d.files, depth + 1) + ListingForest(d.subdirs, depth + 1);
    ListedFileLinesOnly(d.files, depth + 1);
    route := ForestDirReached(d.subdirs, depth + 1, l);
  }

  lemma {:induction false} ForestDirReached(ds: seq<Dir>, depth: nat, l: Line) returns (route: seq<string>)
    requires l in ListingForest(ds, depth) && l.DirLine?
    ensures route != [] && depth + |route| == l.depth + 1 && route[|route| - 1] == l.name
    ensures exists s :: s in ds && s.name == route[0] && Reached(s, route[1..])
    ensures forall k :: 0 <= k < |route| ==> KeepDir(route[k])
    decreases ds
  {
    var s := ds[0];
    var head := if KeepDir(s.name) then Listing(s, depth) else [];
    assert ListingForest(ds, depth) == head + ListingForest(ds[1..], depth);
    if l in head {
      var ls := Listing(s, depth);
      assert ls == [ls[0]] + ls[1..];
      if l == ls[0] {
        route := [s.name];
        assert Reached(s, route[1..]);
      } else {
        var below := ListedDirReached(s, depth, l);
        route := [s.name] + below;
        assert route[1..] == below;
        assert forall k :: 1 <= k < |route| ==> route[k] == below[k - 1];
      }
    } else {
      route := ForestDirReached(ds[1..], depth, l);
      var t :| t in ds[1..] && t.name == route[0] && Reached(t, route[1..]);
      assert t in ds;
    }
  }

  /** The directory at the end of a route of kept names is listed at the route's depth. */
  lemma {:induction false} ReachedDirIsListed(d: Dir, depth: nat, route: seq<string>)
    requires route != [] && Reached(d, route)
    requires forall k :: 0 <= k < |route| ==> KeepDir(route[k])
    ensures DirLine(depth + |route|, route[|route| - 1]) in Listing(d, depth)[1..]
    decreases |route|
  {
    var s :| s in d.subdirs && s.name == route[0] && Reached(s, route[1..]);
    var l := DirLine(depth + |route|, route[|route| - 1]);
    var ls := Listing(s, depth + 1);
    if |route| == 1 {
      assert l == ls[0];
    } else {
      var rest := route[1..];
      assert forall k :: 0 <= k < |rest| ==> rest[k] == route[k + 1];
      ReachedDirIsListed(s, depth + 1, rest);
      assert rest[|rest| - 1] == route[|route| - 1];
      assert ls == [ls[0]] + ls[1..];
    }
    ListedBelowChild(d, depth, s, l);
  }

  /** Every line of an unpruned subdirectory's listing is in its parent's, below the parent's line. */
  lemma ListedBelowChild(d: Dir, depth: nat, s: Dir, l: Line)
    requires s in d.subdirs && KeepDir(s.name) && l in Listing(s, depth + 1)
    ensures l in Listing(d, depth)[1..]
  {
    ForestIncludesListing(d.subdirs, depth + 1, s, l);
    assert Listing(d, depth)[1..] == FileLines(d.files, depth + 1) + ListingForest(d.subdirs, depth + 1);
  }

  /** The (depth, name) the tree shows for each retained file, in walk order. */
  function FileEntries(es: seq<Located>): (r: seq<(nat, string)>)
    ensures |r| == |es|
  {
    if es == [] then [] else [(|es[0].route| + 1, es[0].file.name)] + FileEntries(es[1..])
  }

  lemma {:induction false} FileEntriesAppend(a: seq<Located>, b: seq<Located>)
    ensures FileEntries(a + b) == FileEntries(a) + FileEntries(b)
  {
    if a == [] {
      assert a + b == b;
    } else {
      calc {
        FileEntries(a + b);
        { assert (a + b)[0] == a[0]; assert (a + b)[1..] == a[1..] + b; }
        [(|a[0].route| + 1, a[0].file.name)] + FileEntries(a[1..] + b);
        { FileEntriesAppend(a[1..], b); }
        [(|a[0].route| + 1, a[0].file.name)] + (FileEntries(a[1..]) + FileEntries(b));
        [(|a[0].route| + 1, a[0].file.name)] + FileEntries(a[1..]) + FileEntries(b);
      }
    }
  }

  lemma {:induction false} FileLinesMatchRetainedFiles(fs: seq<File>, route: seq<string>)
    ensures ListedFiles(FileLines(fs, |route| + 1)) == FileEntries(RetainedFiles(fs, route))
  {
    if fs != [] {
      var last := fs[|fs| - 1];
      FileLinesMatchRetainedFiles(fs[..|fs| - 1], route);
      var line := if KeepFile(last.name) then [FileLine(|route| + 1, last.name)] else [];
      var found := if KeepFile(last.name) then [Located(route, last)] else [];
      ListedFilesAppend(FileLines(fs[..|fs| - 1], |route| + 1), line);
      FileEntriesAppend(RetainedFiles(fs[..|fs| - 1], route), found);
      if KeepFile(last.name) {
        assert ListedFiles(line) == [(|route| + 1, last.name)] + ListedFiles([]);
        assert FileEntries(found) == [(|route| + 1, last.name)] + FileEntries([]);
      }
    }
  }

  /**
   * The tree stage and the content stage apply the same rules: the file
   * lines of the listing name exactly the retained files, in the same order
   * and one level below their directory.
   */
  lemma {:induction false} TreeListsRetained(d: Dir, route: seq<string>)
    ensures ListedFiles(Listing(d, |route|)) == FileEntries(Retained(d, route))
    decreases d
  {
    var dl := [DirLine(|route|, d.name)];
    var fl := FileLines(d.files, |route| + 1);
    var forest := ListingForest(d.subdirs, |route| + 1);
    var files := RetainedFiles(d.files, route);
    var nested := RetainedForest(d.subdirs, route);
    assert Listing(d, |route|) == dl + fl + forest;
    assert Retained(d, route) == files + nested;
    calc {
      ListedFiles(dl + fl + forest);
      { ListedFilesAppend(dl + fl, forest); }
      ListedFiles(dl + fl) + ListedFiles(forest);
      { ListedFilesAppend(dl, fl); }
      ListedFiles(dl) + ListedFiles(fl) + ListedFiles(forest);
      { assert ListedFiles(dl) == [] + ListedFiles([]); }
      ListedFiles(fl) + ListedFiles(forest);
      { FileLinesMatchRetainedFiles(d.files, route); ForestListsRetained(d.subdirs, route); }
      FileEntries(files) + FileEntries(nested);
      { FileEntriesAppend(files, nested); }
      FileEntries(files + nested);
    }
  }

  lemma {:induction false} ForestListsRetained(ds: seq<Dir>, route: seq<string>)
    ensures ListedFiles(ListingForest(ds, |route| + 1)) == FileEntries(RetainedForest(ds, route))
    decreases ds
  {
    if ds != [] {
      var s := ds[0];
      ForestListsRetained(ds[1..], route);
      var head := if KeepDir(s.name) then Listing(s, |route| + 1) else [];
      var found := if KeepDir(s.name) then Retained(s, route + [s.name]) else [];
      ListedFilesAppend(head, ListingForest(ds[1..], |route| + 1));
      FileEntriesAppend(found, RetainedForest(ds[1..], route));
      if KeepDir(s.name) {
        TreeListsRetained(s, route + [s.name]);
      }
    }
  }

  /** The readable files among `es`, in order: those that get a block. */
  function Readable(es: seq<Located>): (r: seq<Located>)
    ensures |r| <= |es|
    ensures forall i :: 0 <= i < |r| ==> r[i].file.content.Some?
  {
    if es == [] then []
    else (if es[0].file.content.Some? then [es[0]] else []) + Readable(es[1..])
  }

  /** The `k`-th five-part group of a block sequence. */
  function Chunk(bs: seq<string>, k: nat): seq<string>
    requires 5 * k + 5 <= |bs|
  {
    bs[5 * k .. 5 * k + 5]
  }

  lemma ChunkShift(head: seq<string>, tail: seq<string>, k: nat)
    requires |head| == 5 && 1 <= k && 5 * k + 5 <= |head + tail|
    ensures Chunk(head + tail, k) == Chunk(tail, k - 1)
  {
    var bs := head + tail;
    assert forall i :: 5 * k <= i < 5 * k + 5 ==> bs[i] == tail[i - 5];
  }

  lemma {:induction false} BlocksLength(es: seq<Located>)
    ensures |Blocks(es)| == 5 * |Readable(es)|
  {
    if es != [] {
      BlocksLength(es[1..]);
    }
  }

  ghost predicate BlockOfReadable(es: seq<Located>, k: nat)
    requires k < |Readable(es)| && |Blocks(es)| == 5 * |Readable(es)|
  {
    var e := Readable(es)[k];
    var path := RelPath(e.route, e.file.name);
    Chunk(Blocks(es), k) == [StartMarker(path), OpenFence, e.file.content.value, CloseFence, EndMarker(path)]
  }

  /** The block of the `k`-th readable file. */
  lemma {:induction false} BlockAt(es: seq<Located>, k: nat)
    requires k < |Readable(es)|
    ensures |Blocks(es)| == 5 * |Readable(es)|
    ensures BlockOfReadable(es, k)
  {
    BlocksLength(es);
    if es[0].file.content.Some? {
      if k == 0 {
        FirstBlock(es);
      } else {
        BlockAt(es[1..], k - 1);
        LaterBlock(es, k);
      }
    } else {
      BlockAt(es[1..], k);
      SkipUnreadable(es, k);
    }
  }

  lemma SkipUnreadable(es: seq<Located>, k: nat)
    requires es != [] && es[0].file.content.None?
    requires k < |Readable(es[1..])|
    requires |Blocks(es[1..])| == 5 * |Readable(es[1..])|
    requires BlockOfReadable(es[1..], k)
    ensures |Blocks(es)| == 5 * |Readable(es)| && k < |Readable(es)|
    ensures BlockOfReadable(es, k)
  {
    assert Blocks(es) == [] + Blocks(es[1..]) == Blocks(es[1..]);
    assert Readable(es) == [] + Readable(es[1..]) == Readable(es[1..]);
  }

  lemma FirstBlock(es: seq<Located>)
    requires es != [] && es[0].file.content.Some?
    ensures |Blocks(es)| >= 5 && |Readable(es)| >= 1
    ensures var path := RelPath(es[0].route, es[0].file.name);
      && Readable(es)[0] == es[0]
      && Chunk(Blocks(es), 0) == [StartMarker(path), OpenFence, es[0].file.content.value, CloseFence, EndMarker(path)]
  {
    assert Blocks(es) == FileBlock(es[0]) + Blocks(es[1..]);
    assert Readable(es) == [es[0]] + Readable(es[1..]);
  }

  lemma LaterBlock(es: seq<Located>, k: nat)
    requires es != [] && es[0].file.content.Some?
    requires 1 <= k < |Readable(es)|
    requires |Blocks(es[1..])| == 5 * |Readable(es[1..])|
    requires BlockOfReadable(es[1..], k - 1)
    ensures |Blocks(es)| == 5 * |Readable(es)|
    ensures BlockOfReadable(es, k)
  {
    var head, tail := FileBlock(es[0]), Blocks(es[1..]);
    assert Blocks(es) == head + tail;
    assert Readable(es) == [es[0]] + Readable(es[1..]);
    assert Readable(es)[k] == Readable(es[1..])[k - 1];
    ChunkShift(head, tail, k);
  }

  /**
   * The content section is one five-part block per readable file, in walk
   * order: START marker and END marker name the same relative path, the
   * typescript fence opens, the text is verbatim, the fence closes.
   */
  lemma {:induction false} BlockLayout(es: seq<Located>)
    ensures |Blocks(es)| == 5 * |Readable(es)|
    ensures forall k :: 0 <= k < |Readable(es)| ==>
      var e := Readable(es)[k];
      var path := RelPath(e.route, e.file.name);
      Chunk(Blocks(es), k) == [StartMarker(path), OpenFence, e.file.content.value, CloseFence, EndMarker(path)]
  {
    BlocksLength(es);
    forall k | 0 <= k < |Readable(es)|
      ensures var e := Readable(es)[k];
        var path := RelPath(e.route, e.file.name);
        Chunk(Blocks(es), k) == [StartMarker(path), OpenFence, e.file.content.value, CloseFence, EndMarker(path)]
    {
      BlockAt(es, k);
    }
  }

  /** A file whose read fails contributes nothing, and the files after it are still emitted. */
  lemma UnreadableFileAddsNothing(before: seq<Located>, e: Located, after: seq<Located>)
    requires e.file.content.None?
    ensures Blocks(before + [e] + after) == Blocks(before) + Blocks(after)
    ensures Blocks(before + [e] + after) == Blocks(before + after)
  {
    BlocksAppend(before + [e], after);
    BlocksAppend(before, [e]);
    BlocksAppend(before, after);
    assert [e][1..] == [];
    assert Blocks([e]) == [] + Blocks([]);
    assert Blocks(before) + [] == Blocks(before);
  }

  /** A file whose read succeeds contributes its whole block in place. */
  lemma ReadableFileAddsBlock(before: seq<Located>, e: Located, after: seq<Located>)
    requires e.file.content.Some?
    ensures Blocks(before + [e] + after)
            == Blocks(before)
               + [StartMarker(RelPath(e.route, e.file.name)), OpenFence, e.file.content.value,
                  CloseFence, EndMarker(RelPath(e.route, e.file.name))]
               + Blocks(after)
  {
    BlocksAppend(before + [e], after);
    BlocksAppend(before, [e]);
    assert Blocks([e]) == FileBlock(e) + Blocks([]);
  }

  /** Joining a first part onto at least one more puts the separator between them. */
  lemma {:induction false} JoinCons(sep: string, first: string, rest: seq<string>)
    requires rest != []
    ensures Join(sep, [first] + rest) == first + sep + Join(sep, rest)
  {
    assert ([first] + rest)[1..] == rest;
  }

  /**
   * The document is the tree listing, a newline, the contents header, and
   * then (if any file was emitted) a newline and the newline-joined blocks.
   */
  lemma PromptLayout(root: Dir)
    ensures var bs := Blocks(Retained(root, []));
      Prompt(root) == RenderTree(root) + "\n" + ContentsHeader
                      + (if bs == [] then "" else "\n" + Join("\n", bs))
  {
    var bs := Blocks(Retained(root, []));
    assert PromptParts(root) == [RenderTree(root), ContentsHeader] + bs;
    JoinTreeHeaderBlocks(RenderTree(root), bs);
  }

  lemma JoinTreeHeaderBlocks(tree: string, bs: seq<string>)
    ensures Join("\n", [tree, ContentsHeader] + bs)
            == tree + "\n" + ContentsHeader + (if bs == [] then "" else "\n" + Join("\n", bs))
  {
    var tail := if bs == [] then "" else "\n" + Join("\n", bs);
    assert [tree, ContentsHeader] + bs == [tree] + ([ContentsHeader] + bs);
    JoinCons("\n", tree, [ContentsHeader] + bs);
    if bs == [] {
      assert [ContentsHeader] + bs == [ContentsHeader];
      assert ContentsHeader + "" == ContentsHeader;
    } else {
      JoinCons("\n", ContentsHeader, bs);
      ConcatAssoc(ContentsHeader, "\n", Join("\n", bs));
    }
    assert Join("\n", [ContentsHeader] + bs) == ContentsHeader + tail;
    ConcatAssoc(tree + "\n", ContentsHeader, tail);
  }

  /** The document always opens with the project-structure header. */
  lemma {:induction false} PromptStartsWithTree(root: Dir)
    ensures |RenderTree(root)| <= |Prompt(root)|
    ensures Prompt(root)[..|RenderTree(root)|] == RenderTree(root)
    ensures Prompt(root)[..|TreeHeader|] == TreeHeader
  {
    PromptLayout(root);
    var tree := RenderTree(root);
    var p := Prompt(root);
    assert p[..|tree|] == tree;
    assert tree[..|TreeHeader|] == TreeHeader;
    assert p[..|TreeHeader|] == p[..|tree|][..|TreeHeader|];
  }
}
