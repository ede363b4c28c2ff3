/**
 * How `generate_tree` derives a directory's indentation level from the path
 * the walk yields for it. As written, the level is the number of separators
 * left after deleting EVERY occurrence of the start path from the directory's
 * path; the intended level is the directory's depth below the start path.
 */
module Level {
  /** The separator the walk uses between path components. */
  const Sep: char := '/'

  /** A single path component: no separator inside. */
  predicate IsComponent(name: string) {
    forall i :: 0 <= i < |name| ==> name[i] != Sep
  }

  /** `s.replace(pat, '')`: delete every non-overlapping occurrence of `pat`, scanning left to right. */
  function RemoveAll(s: string, pat: string): (r: string)
    requires pat != ""
    ensures |r| <= |s|
    decreases |s|
  {
    if |s| < |pat| then s
    else if s[..|pat|] == pat then RemoveAll(s[|pat|..], pat)
    else [s[0]] + RemoveAll(s[1..], pat)
  }

  /** `s.count(c)` for a single character. */
  function CountChar(s: string, c: char): (n: nat)
    ensures n <= |s|
    ensures n == 0 <==> forall i :: 0 <= i < |s| ==> s[i] != c
  {
    if s == [] then 0 else (if s[0] == c then 1 else 0) + CountChar(s[1..], c)
  }

  /** The part of a walk path below the start path: "/" and a name per level. */
  function Below(route: seq<string>): string {
    if route == [] then "" else Below(route[..|route| - 1]) + [Sep] + route[|route| - 1]
  }

  /** The path the walk yields for the directory reached by `route` from `start`. */
  function WalkPath(start: string, route: seq<string>): string {
    start + Below(route)
  }

  /** The level as the code computes it: `root.replace(startpath, '').count(os.sep)`. */
  function LevelAsWritten(start: string, route: seq<string>): nat
    requires start != ""
  {
    CountChar(RemoveAll(WalkPath(start, route), start), Sep)
  }

  /**
   * The level as intended: the separators in what follows the start path,
   * with only that leading occurrence of the start path removed.
   */
  function LevelIntended(start: string, route: seq<string>): (level: nat)
    requires forall k :: 0 <= k < |route| ==> IsComponent(route[k])
    ensures level == |route|
  {
    var path := WalkPath(start, route);
    assert path[|start|..] == Below(route);
    BelowSeparators(route);
    CountChar(path[|start|..], Sep)
  }

  lemma {:induction false} CountCharAppend(a: string, b: string, c: char)
    ensures CountChar(a + b, c) == CountChar(a, c) + CountChar(b, c)
  {
    if a == [] {
      assert a + b == b;
    } else {
      assert (a + b)[1..] == a[1..] + b;
      CountCharAppend(a[1..], b, c);
    }
  }

  /** Below(route) has one separator per directory level. */
  lemma {:induction false} BelowSeparators(route: seq<string>)
    requires forall k :: 0 <= k < |route| ==> IsComponent(route[k])
    ensures CountChar(Below(route), Sep) == |route|
  {
    if route != [] {
      var init, last := route[..|route| - 1], route[|route| - 1];
      BelowSeparators(init);
      CountCharAppend(Below(init) + [Sep], last, Sep);
      CountCharAppend(Below(init), [Sep], Sep);
      assert CountChar(last, Sep) == 0;
      assert CountChar([Sep], Sep) == 1 + CountChar([], Sep);
    }
  }

  /**
   * The code's level for start path "/a" and its subdirectory "ab" is 0,
   * not 1: deleting every "/a" from "/a/ab" leaves "b", with no separator.
   */
  lemma LevelAsWrittenMiscounts()
    ensures LevelAsWritten("/a", ["ab"]) == 0
    ensures LevelIntended("/a", ["ab"]) == 1
  {
    assert ["ab"][..0] == [];
    assert Below(["ab"]) == "/ab";
    assert WalkPath("/a", ["ab"]) == "/a/ab";
    assert RemoveAll("b", "/a") == "b";
    assert "/ab"[..2] == "/a" && "/ab"[2..] == "b";
    assert RemoveAll("/ab", "/a") == "b";
    assert "/a/ab"[..2] == "/a" && "/a/ab"[2..] == "/ab";
    assert RemoveAll("/a/ab", "/a") == "b";
    assert CountChar("b", Sep) == 0 + CountChar("", Sep);
    assert IsComponent("ab");
  }
}
