/**
 * The content section and the whole prompt: one five-part block per kept,
 * readable file, all parts joined with newlines after the tree listing.
 */
module Content {
  import opened Wrappers
  import opened ProjectTree
  import opened TreeListing

  const ContentsHeader: string := "### FILE CONTENTS ###\n"
  const OpenFence: string := "```typescript"
  const CloseFence: string := "```"

  function StartMarker(path: string): string {
    "--- START OF FILE: " + path + " ---"
  }

  function EndMarker(path: string): string {
    "--- END OF FILE: " + path + " ---\n"
  }

  /** The five parts for a readable file; nothing for one whose read failed. */
  function FileBlock(e: Located): seq<string> {
    match e.file.content
    case None => []
    case Some(text) =>
      var path := RelPath(e.route, e.file.name);
      [StartMarker(path), OpenFence, text, CloseFence, EndMarker(path)]
  }

  function Blocks(es: seq<Located>): seq<string> {
    if es == [] then [] else FileBlock(es[0]) + Blocks(es[1..])
  }

  /** `sep.join(parts)`. */
  function Join(sep: string, parts: seq<string>): string {
    if parts == [] then ""
    else if |parts| == 1 then parts[0]
    else parts[0] + sep + Join(sep, parts[1..])
  }

  /** The parts `generate_prompt` collects before joining them. */
  function PromptParts(root: Dir): seq<string> {
    [RenderTree(root), ContentsHeader] + Blocks(Retained(root, []))
  }

  /** The document `generate_prompt` returns for the start directory `root`. */
  function Prompt(root: Dir): string {
    Join("\n", PromptParts(root))
  }

  /** The advisory size figure: the prompt's length floor-divided by four. */
  function TokenEstimate(prompt: string): (n: nat)
    ensures 4 * n <= |prompt| < 4 * n + 4
  {
    |prompt| / 4
  }

  lemma {:induction false} BlocksAppend(a: seq<Located>, b: seq<Located>)
    ensures Blocks(a + b) == Blocks(a) + Blocks(b)
  {
    if a == [] {
      assert a + b == b;
    } else {
      calc {
        Blocks(a + b);
        { assert (a + b)[0] == a[0]; assert (a + b)[1..] == a[1..] + b; }
        FileBlock(a[0]) + Blocks(a[1..] + b);
        { BlocksAppend(a[1..], b); }
        FileBlock(a[0]) + (Blocks(a[1..]) + Blocks(b));
        FileBlock(a[0]) + Blocks(a[1..]) + Blocks(b);
      }
    }
  }
}
