/**
 * The three static ignore sets and the retention tests built from them.
 * A directory is pruned by exact name; a file is kept only when neither its
 * exact name nor its extension (as `os.path.splitext` computes it, compared
 * case-sensitively) is ignored.
 */
module IgnoreRules {
  import opened Wrappers

  /** Directory names that are pruned from the walk and never descended into. */
  const IgnoreDirs: set<string> :=
    {"node_modules", "dist", ".git", ".angular", ".vscode", ".idea", "coverage"}

  /** File names that are dropped by exact match. */
  const IgnoreFiles: set<string> :=
    {"package-lock.json", "yarn.lock", ".DS_Store", "favicon.ico"}

  /** Extensions (leading dot included) of binary files, images and the like. */
  const IgnoreExtensions: set<string> :=
    {".png", ".jpg", ".jpeg", ".gif", ".svg", ".ico",
     ".ttf", ".woff", ".woff2", ".eot", ".mp4", ".pdf",
     ".exe", ".dll", ".so", ".dylib", ".class", ".jar"}

  /** Position of the last '.' in `s`, if there is one. */
  function LastDot(s: string): (r: Option<nat>)
    ensures r.Some? ==> r.value < |s| && s[r.value] == '.'
    ensures r.Some? ==> forall k :: r.value < k < |s| ==> s[k] != '.'
    ensures r.None? ==> forall k :: 0 <= k < |s| ==> s[k] != '.'
  {
    if s == [] then None
    else if s[|s| - 1] == '.' then Some(|s| - 1)
    else LastDot(s[..|s| - 1])
  }

  predicate HasNonDot(s: string) {
    exists k :: 0 <= k < |s| && s[k] != '.'
  }

  /**
   * The extension of one path component, as `os.path.splitext` returns it:
   * the suffix from the last dot, unless every character before that dot is
   * itself a dot (so ".svg" and "..svg" have no extension).
   */
  function Ext(name: string): string {
    match LastDot(name)
    case None => ""
    case Some(i) => if HasNonDot(name[..i]) then name[i..] else ""
  }

  /** The directory filter applied to `dirs` before the walk descends. */
  predicate KeepDir(name: string) {
    name !in IgnoreDirs
  }

  /** The file test shared by the tree listing and the content collection. */
  predicate KeepFile(name: string) {
    name !in IgnoreFiles && Ext(name) !in IgnoreExtensions
  }

  /**
   * Ext splits a name the way splitext does: the extension is non-empty
   * exactly when some dot follows some non-dot character, and then it is the
   * suffix that starts at the last dot and holds no other dot.
   */
  lemma {:induction false} ExtIsSplitextSuffix(name: string)
    ensures Ext(name) != "" <==>
      exists i, j :: 0 <= j < i < |name| && name[j] != '.' && name[i] == '.'
    ensures var e := Ext(name);
      e != "" ==>
        && |e| <= |name|
        && name == name[..|name| - |e|] + e
        && e[0] == '.'
        && (forall k :: 1 <= k < |e| ==> e[k] != '.')
        && HasNonDot(name[..|name| - |e|])
  {
    var e := Ext(name);
    match LastDot(name)
    case None =>
    case Some(d) =>
      if exists i, j :: 0 <= j < i < |name| && name[j] != '.' && name[i] == '.' {
        var i, j :| 0 <= j < i < |name| && name[j] != '.' && name[i] == '.';
        assert i <= d;
        assert name[..d][j] != '.';
      }
      if e != "" {
        assert e == name[d..];
        assert name == name[..d] + name[d..];
        var k :| 0 <= k < d && name[..d][k] != '.';
        assert name[k] != '.' && name[d] == '.';
      }
  }

  /** The usual case: a name with a non-dot stem and one dotted suffix has that suffix as extension. */
  lemma ExtOfDottedName(stem: string, suffix: string)
    requires HasNonDot(stem)
    requires forall k :: 0 <= k < |suffix| ==> suffix[k] != '.'
    ensures Ext(stem + "." + suffix) == "." + suffix
  {
    var name := stem + "." + suffix;
    assert name[|stem|] == '.';
    var d := LastDot(name).value;
    assert forall k :: |stem| < k < |name| ==> name[k] == suffix[k - |stem| - 1];
    assert d == |stem|;
    assert name[..d] == stem;
    assert name[d..] == "." + suffix;
  }
}
