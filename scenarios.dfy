/** Small concrete projects and the output the model gives for them. */
module Scenarios {
  import opened Wrappers
  import opened IgnoreRules
  import opened ProjectTree
  import opened TreeListing
  import opened Content

  /** The project of the dependency scenario: a source folder and an installed package. */
  function DependencyProject(): Dir {
    Dir("proj", [], [
      Dir("src", [File("app.ts", Some("export const x = 1;"))], []),
      Dir("node_modules", [], [Dir("lib", [File("index.js", Some("module.exports = 1;"))], [])])])
  }

  /** Only `src/app.ts` survives the walk; everything under node_modules is pruned. */
  lemma DependencyFolderIsPruned()
    ensures Retained(DependencyProject(), []) == [Located(["src"], File("app.ts", Some("export const x = 1;")))]
    ensures Listing(DependencyProject(), 0) == [DirLine(0, "proj"), DirLine(1, "src"), FileLine(2, "app.ts")]
  {
    var app := File("app.ts", Some("export const x = 1;"));
    var src := Dir("src", [app], []);
    var nm := DependencyProject().subdirs[1];
    assert "app"[0] != '.';
    ExtOfDottedName("app", "ts");
    assert "app" + "." + "ts" == "app.ts";
    assert KeepFile("app.ts");
    assert !KeepDir("node_modules");
    assert KeepDir("src");
    assert [app][..0] == [];
    assert FileLines([app], 2) == [FileLine(2, "app.ts")];
    assert Listing(src, 1) == [DirLine(1, "src"), FileLine(2, "app.ts")];
    assert ListingForest([nm], 1) == [] + ListingForest([], 1);
    assert ListingForest([src, nm], 1) == Listing(src, 1) + ListingForest([nm], 1);
    assert RetainedFiles([app], ["src"]) == [Located(["src"], app)];
    assert Retained(src, ["src"]) == [Located(["src"], app)];
    assert [] + ["src"] == ["src"];
    assert RetainedForest([nm], []) == [] + RetainedForest([], []);
    assert RetainedForest([src, nm], []) == Retained(src, ["src"]) + RetainedForest([nm], []);
  }

  /**
   * A TypeScript file next to an installed dependency: the source file gets
   * its block with the exact text, and nothing from the dependency folder
   * reaches the contents.
   */
  lemma DependencyFolderIsSkipped()
    ensures Blocks(Retained(DependencyProject(), [])) == [
              StartMarker("src/app.ts"), OpenFence, "export const x = 1;", CloseFence, EndMarker("src/app.ts")]
  {
    DependencyFolderIsPruned();
    var e := Located(["src"], File("app.ts", Some("export const x = 1;")));
    assert ["src"][1..] == [];
    assert RelPath(["src"], "app.ts") == "src" + "/" + "app.ts";
    assert "src" + "/" + "app.ts" == "src/app.ts";
    assert Blocks([e]) == FileBlock(e) + Blocks([]);
  }

  /**
   * An image beside a README: the image is filtered by its extension in
   * both stages, the README is listed and its block holds "hello".
   */
  lemma ImageIsFiltered()
    ensures var logo := File("logo.png", Some("PNG"));
      var readme := File("README.md", Some("hello"));
      var root := Dir("proj", [logo, readme], []);
      && Listing(root, 0) == [DirLine(0, "proj"), FileLine(1, "README.md")]
      && Blocks(Retained(root, [])) == [
           StartMarker("README.md"), OpenFence, "hello", CloseFence, EndMarker("README.md")]
  {
    var logo := File("logo.png", Some("PNG"));
    var readme := File("README.md", Some("hello"));
    var root := Dir("proj", [logo, readme], []);
    assert "logo"[0] != '.';
    ExtOfDottedName("logo", "png");
    assert "logo" + "." + "png" == "logo.png";
    assert !KeepFile("logo.png");
    assert "README"[0] != '.';
    ExtOfDottedName("README", "md");
    assert "README" + "." + "md" == "README.md";
    assert KeepFile("README.md");
    assert [logo, readme][..1] == [logo];
    assert [logo][..0] == [];
    assert FileLines([logo], 1) == FileLines([], 1) + [];
    assert FileLines([logo, readme], 1) == [FileLine(1, "README.md")];
    assert RetainedFiles([logo], []) == RetainedFiles([], []) + [];
    assert RetainedFiles([logo, readme], []) == [Located([], readme)];
    assert Retained(root, []) == [Located([], readme)];
    assert Blocks([Located([], readme)]) == FileBlock(Located([], readme)) + Blocks([]);
  }

  /**
   * A file that cannot be decoded: it is still listed in the tree, it gets
   * no block, and the file after it gets its block.
   */
  lemma UndecodableFileIsSkipped()
    ensures var bad := File("data.bin", None);
      var good := File("main.ts", Some("run();"));
      var root := Dir("proj", [bad, good], []);
      && Listing(root, 0) == [DirLine(0, "proj"), FileLine(1, "data.bin"), FileLine(1, "main.ts")]
      && Blocks(Retained(root, [])) == [
           StartMarker("main.ts"), OpenFence, "run();", CloseFence, EndMarker("main.ts")]
  {
    var bad := File("data.bin", None);
    var good := File("main.ts", Some("run();"));
    var root := Dir("proj", [bad, good], []);
    assert "data"[0] != '.';
    ExtOfDottedName("data", "bin");
    assert "data" + "." + "bin" == "data.bin";
    assert KeepFile("data.bin");
    assert "main"[0] != '.';
    ExtOfDottedName("main", "ts");
    assert "main" + "." + "ts" == "main.ts";
    assert KeepFile("main.ts");
    assert [bad, good][..1] == [bad];
    assert [bad][..0] == [];
    assert FileLines([bad], 1) == FileLines([], 1) + [FileLine(1, "data.bin")];
    assert FileLines([bad, good], 1) == [FileLine(1, "data.bin"), FileLine(1, "main.ts")];
    assert RetainedFiles([bad], []) == RetainedFiles([], []) + [Located([], bad)];
    assert RetainedFiles([bad, good], []) == [Located([], bad), Located([], good)];
    assert Retained(root, []) == [Located([], bad), Located([], good)];
    assert [Located([], bad), Located([], good)][1..] == [Located([], good)];
    assert Blocks([Located([], good)]) == FileBlock(Located([], good)) + Blocks([]);
  }
}
