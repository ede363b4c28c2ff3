/**
 * The project-structure listing: one line per directory on the pruned walk,
 * followed directly by one line per kept file of that directory, indented
 * four spaces per level.
 */
module TreeListing {
  import opened IgnoreRules
  import opened ProjectTree

  const TreeHeader: string := "### PROJECT STRUCTURE ###\n\n"

  /** Four spaces per nesting level. */
  function Indent(level: nat): string {
    seq(4 * level, _ => ' ')
  }

  datatype Line = DirLine(depth: nat, name: string) | FileLine(depth: nat, name: string)

  function LineText(l: Line): string {
    match l
    case DirLine(depth, name) => Indent(depth) + name + "/\n"
    case FileLine(depth, name) => Indent(depth) + name + "\n"
  }

  function Text(ls: seq<Line>): string {
    if ls == [] then "" else LineText(ls[0]) + Text(ls[1..])
  }

  /** The lines of the kept files among `fs`, in enumeration order. */
  function FileLines(fs: seq<File>, depth: nat): seq<Line> {
    if fs == [] then []
    else
      FileLines(fs[..|fs| - 1], depth)
      + (if KeepFile(fs[|fs| - 1].name) then [FileLine(depth, fs[|fs| - 1].name)] else [])
  }

  /**
   * The lines for `d` at nesting level `depth`: its own line (whatever it
   * holds), its kept files one level deeper, then each unpruned subdirectory.
   */
  function Listing(d: Dir, depth: nat): seq<Line>
    decreases d
  {
    [DirLine(depth, d.name)] + FileLines(d.files, depth + 1) + ListingForest(d.subdirs, depth + 1)
  }

  function ListingForest(ds: seq<Dir>, depth: nat): seq<Line>
    decreases ds
  {
    if ds == [] then []
    else (if KeepDir(ds[0].name) then Listing(ds[0], depth) else []) + ListingForest(ds[1..], depth)
  }

  /** The string `generate_tree` returns for the start directory `root`. */
  function RenderTree(root: Dir): string {
    TreeHeader + Text(Listing(root, 0)) + "\n"
  }

  /** The (depth, name) of each file line, in listing order. */
  function ListedFiles(ls: seq<Line>): seq<(nat, string)> {
    if ls == [] then []
    else (if ls[0].FileLine? then [(ls[0].depth, ls[0].name)] else []) + ListedFiles(ls[1..])
  }

  lemma ConcatAssoc<T>(a: seq<T>, b: seq<T>, c: seq<T>)
    ensures a + b + c == a + (b + c)
  {
  }

  lemma {:induction false} TextAppend(a: seq<Line>, b: seq<Line>)
    ensures Text(a + b) == Text(a) + Text(b)
  {
    if a == [] {
      assert a + b == b;
    } else {
      calc {
        Text(a + b);
        { assert (a + b)[0] == a[0]; assert (a + b)[1..] == a[1..] + b; }
        LineText(a[0]) + Text(a[1..] + b);
        { TextAppend(a[1..], b); }
        LineText(a[0]) + (Text(a[1..]) + Text(b));
        LineText(a[0]) + Text(a[1..]) + Text(b);
      }
    }
  }

  lemma {:induction false} ListedFilesAppend(a: seq<Line>, b: seq<Line>)
    ensures ListedFiles(a + b) == ListedFiles(a) + ListedFiles(b)
  {
    if a == [] {
      assert a + b == b;
    } else {
      calc {
        ListedFiles(a + b);
        { assert (a + b)[0] == a[0]; assert (a + b)[1..] == a[1..] + b; }
        (if a[0].FileLine? then [(a[0].depth, a[0].name)] else []) + ListedFiles(a[1..] + b);
        { ListedFilesAppend(a[1..], b); }
        (if a[0].FileLine? then [(a[0].depth, a[0].name)] else []) + (ListedFiles(a[1..]) + ListedFiles(b));
        (if a[0].FileLine? then [(a[0].depth, a[0].name)] else []) + ListedFiles(a[1..]) + ListedFiles(b);
      }
    }
  }
}
