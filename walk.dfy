/**
 * The two traversals as the program runs them: a top-down walk that visits a
 * directory, prunes its subdirectory list in place, and only then descends
 * into what is left. The walk's pending work is a stack of directories whose
 * front is visited next; a directory's route stands for its path below the
 * start directory, and its nesting level is the route's length.
 */
module Walk {
  import opened Wrappers
  import opened IgnoreRules
  import opened ProjectTree
  import opened TreeListing
  import opened Content
  import Level

  datatype Pending = Pending(dir: Dir, route: seq<string>)

  /** Routes and the directories below them are made of single path components. */
  ghost predicate WellNamed(stack: seq<Pending>) {
    forall i :: 0 <= i < |stack| ==>
      && ComponentNames(stack[i].dir)
      && (forall k :: 0 <= k < |stack[i].route| ==> Level.IsComponent(stack[i].route[k]))
  }

  /** Visiting the front directory keeps every pending route well named. */
  lemma VisitWellNamed(stack: seq<Pending>)
    requires stack != [] && WellNamed(stack)
    ensures WellNamed(Children(Pruned(stack[0].dir.subdirs), stack[0].route) + stack[1..])
  {
    var v := stack[0];
    var kids := Children(Pruned(v.dir.subdirs), v.route);
    var next := kids + stack[1..];
    forall i | 0 <= i < |next|
      ensures ComponentNames(next[i].dir)
      ensures forall k :: 0 <= k < |next[i].route| ==> Level.IsComponent(next[i].route[k])
    {
      if i < |kids| {
        var s := Pruned(v.dir.subdirs)[i];
        assert next[i] == Pending(s, v.route + [s.name]);
        assert s in v.dir.subdirs;
      } else {
        assert next[i] == stack[1..][i - |kids|] == stack[i - |kids| + 1];
      }
    }
  }

  /** The walk entries for the (already pruned) subdirectories `ds`, first one first. */
  function Children(ds: seq<Dir>, route: seq<string>): (r: seq<Pending>)
    ensures |r| == |ds|
    ensures forall k :: 0 <= k < |ds| ==> r[k] == Pending(ds[k], route + [ds[k].name])
  {
    if ds == [] then [] else [Pending(ds[0], route + [ds[0].name])] + Children(ds[1..], route)
  }

  /** The listing lines still owed for the pending directories. */
  ghost function PendingListing(stack: seq<Pending>): seq<Line> {
    if stack == [] then []
    else Listing(stack[0].dir, |stack[0].route|) + PendingListing(stack[1..])
  }

  /** The retained files still to be visited below the pending directories. */
  ghost function PendingRetained(stack: seq<Pending>): seq<Located> {
    if stack == [] then []
    else Retained(stack[0].dir, stack[0].route) + PendingRetained(stack[1..])
  }

  ghost function Size(d: Dir): nat
    decreases d
  {
    1 + SizeForest(d.subdirs)
  }

  ghost function SizeForest(ds: seq<Dir>): nat
    decreases ds
  {
    if ds == [] then 0 else Size(ds[0]) + SizeForest(ds[1..])
  }

  ghost function PendingSize(stack: seq<Pending>): nat {
    if stack == [] then 0 else Size(stack[0].dir) + PendingSize(stack[1..])
  }

  lemma {:induction false} ChildrenAppend(a: seq<Dir>, b: seq<Dir>, route: seq<string>)
    ensures Children(a + b, route) == Children(a, route) + Children(b, route)
  {
    assert |Children(a + b, route)| == |Children(a, route) + Children(b, route)|;
    forall k | 0 <= k < |a + b|
      ensures Children(a + b, route)[k] == (Children(a, route) + Children(b, route))[k]
    {
      if k >= |a| {
        assert (a + b)[k] == b[k - |a|];
      }
    }
  }

  lemma {:induction false} PendingListingAppend(a: seq<Pending>, b: seq<Pending>)
    ensures PendingListing(a + b) == PendingListing(a) + PendingListing(b)
  {
    if a == [] {
      assert a + b == b;
    } else {
      calc {
        PendingListing(a + b);
        { assert (a + b)[0] == a[0]; assert (a + b)[1..] == a[1..] + b; }
        Listing(a[0].dir, |a[0].route|) + PendingListing(a[1..] + b);
        { PendingListingAppend(a[1..], b); }
        Listing(a[0].dir, |a[0].route|) + (PendingListing(a[1..]) + PendingListing(b));
        Listing(a[0].dir, |a[0].route|) + PendingListing(a[1..]) + PendingListing(b);
      }
    }
  }

  lemma {:induction false} PendingRetainedAppend(a: seq<Pending>, b: seq<Pending>)
    ensures PendingRetained(a + b) == PendingRetained(a) + PendingRetained(b)
  {
    if a == [] {
      assert a + b == b;
    } else {
      calc {
        PendingRetained(a + b);
        { assert (a + b)[0] == a[0]; assert (a + b)[1..] == a[1..] + b; }
        Retained(a[0].dir, a[0].route) + PendingRetained(a[1..] + b);
        { PendingRetainedAppend(a[1..], b); }
        Retained(a[0].dir, a[0].route) + (PendingRetained(a[1..]) + PendingRetained(b));
        Retained(a[0].dir, a[0].route) + PendingRetained(a[1..]) + PendingRetained(b);
      }
    }
  }

  lemma {:induction false} PendingSizeAppend(a: seq<Pending>, b: seq<Pending>)
    ensures PendingSize(a + b) == PendingSize(a) + PendingSize(b)
  {
    if a == [] {
      assert a + b == b;
    } else {
      calc {
        PendingSize(a + b);
        { assert (a + b)[0] == a[0]; assert (a + b)[1..] == a[1..] + b; }
        Size(a[0].dir) + PendingSize(a[1..] + b);
        { PendingSizeAppend(a[1..], b); }
        Size(a[0].dir) + (PendingSize(a[1..]) + PendingSize(b));
        Size(a[0].dir) + PendingSize(a[1..]) + PendingSize(b);
      }
    }
  }

  /**
   * Pushing the pruned subdirectories owes exactly the listing of the
   * unpruned forest: pruning before descent and skipping ignored
   * directories during descent produce the same lines.
   */
  lemma {:induction false} ChildrenListing(ds: seq<Dir>, route: seq<string>)
    ensures PendingListing(Children(Pruned(ds), route)) == ListingForest(ds, |route| + 1)
  {
    if ds != [] {
      var head := if KeepDir(ds[0].name) then [ds[0]] else [];
      assert Pruned(ds) == head + Pruned(ds[1..]);
      ChildrenAppend(head, Pruned(ds[1..]), route);
      PendingListingAppend(Children(head, route), Children(Pruned(ds[1..]), route));
      ChildrenListing(ds[1..], route);
      if KeepDir(ds[0].name) {
        var c := Children(head, route);
        assert c == [Pending(ds[0], route + [ds[0].name])];
        assert PendingListing(c) == Listing(ds[0], |route| + 1) + PendingListing(c[1..]);
      }
    }
  }

  /** The same, for the retained files the content stage will meet. */
  lemma {:induction false} ChildrenRetained(ds: seq<Dir>, route: seq<string>)
    ensures PendingRetained(Children(Pruned(ds), route)) == RetainedForest(ds, route)
  {
    if ds != [] {
      var head := if KeepDir(ds[0].name) then [ds[0]] else [];
      assert Pruned(ds) == head + Pruned(ds[1..]);
      ChildrenAppend(head, Pruned(ds[1..]), route);
      PendingRetainedAppend(Children(head, route), Children(Pruned(ds[1..]), route));
      ChildrenRetained(ds[1..], route);
      if KeepDir(ds[0].name) {
        var c := Children(head, route);
        assert c == [Pending(ds[0], route + [ds[0].name])];
        assert PendingRetained(c) == Retained(ds[0], route + [ds[0].name]) + PendingRetained(c[1..]);
      }
    }
  }

  /** Pruning never adds work, so the walk terminates. */
  lemma {:induction false} ChildrenSize(ds: seq<Dir>, route: seq<string>)
    ensures PendingSize(Children(Pruned(ds), route)) <= SizeForest(ds)
  {
    if ds != [] {
      var head := if KeepDir(ds[0].name) then [ds[0]] else [];
      assert Pruned(ds) == head + Pruned(ds[1..]);
      ChildrenAppend(head, Pruned(ds[1..]), route);
      PendingSizeAppend(Children(head, route), Children(Pruned(ds[1..]), route));
      ChildrenSize(ds[1..], route);
      if KeepDir(ds[0].name) {
        var c := Children(head, route);
        assert c == [Pending(ds[0], route + [ds[0].name])];
        assert PendingSize(c) == Size(ds[0]) + PendingSize(c[1..]);
      }
    }
  }

  /**
   * Visiting the front directory owes its own line and its kept files' lines;
   * what remains is owed by its pruned children followed by the rest.
   */
  lemma VisitListing(stack: seq<Pending>)
    requires stack != []
    ensures var v := stack[0];
      Text(PendingListing(stack))
      == LineText(DirLine(|v.route|, v.dir.name)) + Text(FileLines(v.dir.files, |v.route| + 1))
         + Text(PendingListing(Children(Pruned(v.dir.subdirs), v.route) + stack[1..]))
  {
    var v, rest := stack[0], stack[1..];
    var level := |v.route|;
    var kids := Children(Pruned(v.dir.subdirs), v.route);
    var head := [DirLine(level, v.dir.name)];
    var fl := FileLines(v.dir.files, level + 1);
    var forest := ListingForest(v.dir.subdirs, level + 1);
    var a, b, c, r := LineText(head[0]), Text(fl), Text(forest), Text(PendingListing(rest));
    calc {
      Text(PendingListing(stack));
      Text(Listing(v.dir, level) + PendingListing(rest));
      { TextAppend(Listing(v.dir, level), PendingListing(rest)); }
      Text(Listing(v.dir, level)) + r;
      { assert Listing(v.dir, level) == head + fl + forest;
        TextAppend(head + fl, forest); TextAppend(head, fl);
        assert Text(head) == a + Text([]); }
      a + b + c + r;
      { TextAppend(forest, PendingListing(rest)); }
      a + b + Text(forest + PendingListing(rest));
      { ChildrenListing(v.dir.subdirs, v.route); }
      a + b + Text(PendingListing(kids) + PendingListing(rest));
      { PendingListingAppend(kids, rest); }
      a + b + Text(PendingListing(kids + rest));
    }
  }

  /** Visiting the front directory owes the blocks of its own kept files, then its children's. */
  lemma VisitRetained(stack: seq<Pending>)
    requires stack != []
    ensures var v := stack[0];
      Blocks(PendingRetained(stack))
      == Blocks(RetainedFiles(v.dir.files, v.route))
         + Blocks(PendingRetained(Children(Pruned(v.dir.subdirs), v.route) + stack[1..]))
  {
    var v, rest := stack[0], stack[1..];
    var kids := Children(Pruned(v.dir.subdirs), v.route);
    PendingRetainedAppend(kids, rest);
    ChildrenRetained(v.dir.subdirs, v.route);
    var rf := RetainedFiles(v.dir.files, v.route);
    var forest := RetainedForest(v.dir.subdirs, v.route);
    BlocksAppend(rf, forest);
    BlocksAppend(Retained(v.dir, v.route), PendingRetained(rest));
    BlocksAppend(forest, PendingRetained(rest));
  }

  /** Visiting the front directory shrinks the pending work. */
  lemma VisitSize(stack: seq<Pending>)
    requires stack != []
    ensures PendingSize(Children(Pruned(stack[0].dir.subdirs), stack[0].route) + stack[1..])
            < PendingSize(stack)
  {
    var v := stack[0];
    PendingSizeAppend(Children(Pruned(v.dir.subdirs), v.route), stack[1..]);
    ChildrenSize(v.dir.subdirs, v.route);
  }

  /** Extending the scanned prefix of a directory's files by one file. */
  lemma FileLinesStep(files: seq<File>, i: nat, level: nat)
    requires i < |files|
    ensures Text(FileLines(files[..i + 1], level))
            == Text(FileLines(files[..i], level))
               + (if KeepFile(files[i].name) then Indent(level) + files[i].name + "\n" else "")
  {
    var f := files[i];
    assert files[..i + 1][..i] == files[..i];
    var line := if KeepFile(f.name) then [FileLine(level, f.name)] else [];
    assert FileLines(files[..i + 1], level) == FileLines(files[..i], level) + line;
    TextAppend(FileLines(files[..i], level), line);
    if KeepFile(f.name) {
      assert Text(line) == LineText(line[0]) + Text([]);
    }
  }

  /**
   * The body of one walk step of `generate_tree`: append the directory's
   * line, then the line of each of its files that is kept.
   */
  method EmitDirectory(treeStr: string, dir: Dir, level: nat) returns (out: string)
    ensures out == treeStr + Text([DirLine(level, dir.name)] + FileLines(dir.files, level + 1))
  {
    var indent := Indent(level);
    out := treeStr + (indent + dir.name + "/\n");
    ghost var afterDir := out;
    var subindent := Indent(level + 1);
    var files := dir.files;
    var i := 0;
    while i < |files|
      invariant 0 <= i <= |files|
      invariant out == afterDir + Text(FileLines(files[..i], level + 1))
    {
      var f := files[i];
      FileLinesStep(files, i, level + 1);
      ghost var done := Text(FileLines(files[..i], level + 1));
      if KeepFile(f.name) {
        ConcatAssoc(afterDir, done, subindent + f.name + "\n");
        out := out + (subindent + f.name + "\n");
      } else {
        assert done + "" == done;
      }
      i := i + 1;
    }
    assert files[..i] == files;
    var head := [DirLine(level, dir.name)];
    TextAppend(head, FileLines(files, level + 1));
    assert Text(head) == LineText(head[0]) + Text([]);
    ConcatAssoc(treeStr, indent + dir.name + "/\n", Text(FileLines(files, level + 1)));
  }

  /** `generate_tree`: the listing text, built line by line over the walk. */
  method GenerateTree(startPath: string, start: Dir) returns (treeStr: string)
    requires ComponentNames(start)
    ensures treeStr == RenderTree(start)
  {
    treeStr := TreeHeader;
    var stack := [Pending(start, [])];
    assert WellNamed(stack);
    assert PendingListing(stack) == Listing(start, 0) + PendingListing([]);
    assert Listing(start, 0) + [] == Listing(start, 0);
    while stack != []
      invariant WellNamed(stack)
      invariant treeStr + Text(PendingListing(stack)) == TreeHeader + Text(Listing(start, 0))
      decreases PendingSize(stack)
    {
      var visit := stack[0];
      var dirs := Pruned(visit.dir.subdirs);
      var level := Level.LevelIntended(startPath, visit.route);
      ghost var before := treeStr;
      treeStr := EmitDirectory(treeStr, visit.dir, level);
      VisitListing(stack);
      VisitSize(stack);
      VisitWellNamed(stack);
      stack := Children(dirs, visit.route) + stack[1..];
      ghost var owed := Text(PendingListing(stack));
      ghost var own := Text([DirLine(level, visit.dir.name)] + FileLines(visit.dir.files, level + 1));
      ConcatAssoc(before, own, owed);
    }
    treeStr := treeStr + "\n";
  }

  /** Extending the scanned prefix of a directory's files by one file. */
  lemma BlocksStep(files: seq<File>, i: nat, route: seq<string>)
    requires i < |files|
    ensures Blocks(RetainedFiles(files[..i + 1], route))
            == Blocks(RetainedFiles(files[..i], route))
               + (if KeepFile(files[i].name) then FileBlock(Located(route, files[i])) else [])
  {
    assert files[..i + 1][..i] == files[..i];
    var found := if KeepFile(files[i].name) then [Located(route, files[i])] else [];
    BlocksAppend(RetainedFiles(files[..i], route), found);
    if KeepFile(files[i].name) {
      assert Blocks(found) == FileBlock(found[0]) + Blocks([]);
    }
  }

  /**
   * The body of one walk step of `generate_prompt`: for each kept file of
   * the directory whose read succeeds, append its five parts.
   */
  method EmitFileBlocks(output: seq<string>, files: seq<File>, route: seq<string>)
    returns (out: seq<string>)
    ensures out == output + Blocks(RetainedFiles(files, route))
  {
    out := output;
    var i := 0;
    while i < |files|
      invariant 0 <= i <= |files|
      invariant out == output + Blocks(RetainedFiles(files[..i], route))
    {
      var file := files[i];
      var relPath := RelPath(route, file.name);
      BlocksStep(files, i, route);
      ghost var done := Blocks(RetainedFiles(files[..i], route));
      ghost var prior := out;
      if KeepFile(file.name) {
        match file.content {
          case Some(text) =>
            out := out + [StartMarker(relPath)];
            out := out + [OpenFence];
            out := out + [text];
            out := out + [CloseFence];
            out := out + [EndMarker(relPath)];
            assert out == prior + [StartMarker(relPath), OpenFence, text, CloseFence, EndMarker(relPath)];
            ConcatAssoc(output, done, FileBlock(Located(route, file)));
          case None =>
            assert done + [] == done;
        }
      } else {
        assert done + [] == done;
      }
      i := i + 1;
    }
    assert files[..i] == files;
  }

  /**
   * `generate_prompt`: the tree, the contents header, then one block per
   * kept file whose read succeeds, all joined with newlines.
   */
  method GeneratePrompt(startPath: string, start: Dir) returns (prompt: string)
    requires ComponentNames(start)
    ensures prompt == Prompt(start)
  {
    var output: seq<string> := [];
    var tree := GenerateTree(startPath, start);
    output := output + [tree];
    output := output + [ContentsHeader];
    var stack := [Pending(start, [])];
    assert PendingRetained(stack) == Retained(start, []) + PendingRetained([]);
    assert Retained(start, []) + [] == Retained(start, []);
    while stack != []
      invariant output + Blocks(PendingRetained(stack)) == PromptParts(start)
      decreases PendingSize(stack)
    {
      var visit := stack[0];
      var dirs := Pruned(visit.dir.subdirs);
      ghost var before := output;
      output := EmitFileBlocks(output, visit.dir.files, visit.route);
      VisitRetained(stack);
      VisitSize(stack);
      stack := Children(dirs, visit.route) + stack[1..];
      ghost var owed := Blocks(PendingRetained(stack));
      ghost var own := Blocks(RetainedFiles(visit.dir.files, visit.route));
      ConcatAssoc(before, own, owed);
    }
    assert output + Blocks([]) == output;
    prompt := Join("\n", output);
  }
}
