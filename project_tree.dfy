/**
 * The directory tree the walk runs over, and the files it retains.
 * A file's content is `None` when opening or decoding it fails.
 */
module ProjectTree {
  import opened Wrappers
  import opened IgnoreRules
  import Level

  datatype File = File(name: string, content: Option<string>)

  /** A directory with its files and subdirectories in the walk's enumeration order. */
  datatype Dir = Dir(name: string, files: seq<File>, subdirs: seq<Dir>)

  /** Every directory below `d` is named by a single path component, as on a real filesystem. */
  ghost predicate ComponentNames(d: Dir)
    decreases d
  {
    forall s :: s in d.subdirs ==> Level.IsComponent(s.name) && ComponentNames(s)
  }

  /**
   * The in-place prune of `dirs` before descent: the subdirectories whose
   * names are not ignored, in their original order.
   */
  function Pruned(ds: seq<Dir>): (r: seq<Dir>)
    ensures |r| <= |ds|
    ensures forall s :: s in r <==> s in ds && KeepDir(s.name)
  {
    if ds == [] then []
    else (if KeepDir(ds[0].name) then [ds[0]] else []) + Pruned(ds[1..])
  }

  /** A single subdirectory survives the prune exactly when its name is kept. */
  lemma PrunedSingle(s: Dir)
    ensures Pruned([s]) == (if KeepDir(s.name) then [s] else [])
  {
    assert [s][1..] == [];
  }

  /**
   * Pruning works entry by entry and keeps the enumeration order: the prune
   * of two lists in a row is the prune of the first followed by that of the
   * second. With `PrunedSingle` this fixes `Pruned` on every list.
   */
  lemma {:induction false} PrunedAppend(a: seq<Dir>, b: seq<Dir>)
    ensures Pruned(a + b) == Pruned(a) + Pruned(b)
  {
    if a == [] {
      assert a + b == b;
    } else {
      assert (a + b)[0] == a[0];
      assert (a + b)[1..] == a[1..] + b;
      PrunedAppend(a[1..], b);
    }
  }

  /**
   * A retained file together with its route: the names of the directories
   * from just below the start directory down to the one holding the file.
   */
  datatype Located = Located(route: seq<string>, file: File)

  /** The path of a file relative to the start directory, with '/' as separator. */
  function RelPath(route: seq<string>, name: string): string {
    if route == [] then name else route[0] + "/" + RelPath(route[1..], name)
  }

  /**
   * A relative path ends with the file's name, and is longer than the name
   * when the file lies in a subdirectory.
   */
  lemma {:induction false} RelPathEndsWithName(route: seq<string>, name: string)
    ensures var p := RelPath(route, name);
      |name| <= |p| && p[|p| - |name|..] == name && (route != [] ==> |name| < |p|)
  {
    if route != [] {
      var rest := RelPath(route[1..], name);
      RelPathEndsWithName(route[1..], name);
      assert RelPath(route, name)[|route[0]| + 1 ..] == rest;
    }
  }

  /** The kept files of one directory, in enumeration order. */
  function RetainedFiles(fs: seq<File>, route: seq<string>): seq<Located> {
    if fs == [] then []
    else
      RetainedFiles(fs[..|fs| - 1], route)
      + (if KeepFile(fs[|fs| - 1].name) then [Located(route, fs[|fs| - 1])] else [])
  }

  /** Every retained file at or below `d`, in top-down walk order. */
  function Retained(d: Dir, route: seq<string>): seq<Located>
    decreases d
  {
    RetainedFiles(d.files, route) + RetainedForest(d.subdirs, route)
  }

  function RetainedForest(ds: seq<Dir>, route: seq<string>): seq<Located>
    decreases ds
  {
    if ds == [] then []
    else
      (if KeepDir(ds[0].name) then Retained(ds[0], route + [ds[0].name]) else [])
      + RetainedForest(ds[1..], route)
  }

  /**
   * `route` leads from `d` down through subdirectories with these names,
   * pruned or not.
   */
  ghost predicate Reached(d: Dir, route: seq<string>)
    decreases |route|
  {
    route == [] || exists s :: s in d.subdirs && s.name == route[0] && Reached(s, route[1..])
  }

  /**
   * `f` is a file of the directory reached from `d` by following
   * subdirectories with the names in `route`, pruned or not.
   */
  ghost predicate InTree(d: Dir, route: seq<string>, f: File)
    decreases |route|
  {
    if route == [] then f in d.files
    else exists s :: s in d.subdirs && s.name == route[0] && InTree(s, route[1..], f)
  }
}
