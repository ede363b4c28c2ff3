# angular_to_prompt, modelled in Dafny

`angular_to_prompt.py` turns an Angular project directory into one text prompt
for a language model. It does this in three steps:

1. It walks the directory top-down and prints an indented tree of the directory
   names and the names of the kept files. This is the "project structure" section.
2. It walks the directory again. For every kept file it can read as UTF-8, it
   appends a block: a START marker with the file's path relative to the project
   root, a code fence, the file's text, a closing fence, and an END marker.
3. It joins the tree, a "file contents" header and all block parts with newlines,
   and reports an approximate token count, `len // 4`.

Three fixed sets decide what is skipped:

- ignored directory names, which are pruned together with everything below them;
- ignored file names;
- ignored file extensions, where the extension follows the rule of
  `os.path.splitext`.

The model works on a value for the directory tree. A `Dir` has a name, its files
in listing order and its subdirectories in listing order. A `File` has a name
and its content: `Some(text)` when the file reads as UTF-8, `None` when the read
fails.

The walk from `os.walk` with in-place pruning of `dirs[:]` is modelled as a
worklist. The front directory is visited next, and its kept subdirectories are
pushed ahead of the remaining work. This gives the same pre-order that
`os.walk` produces. The two program functions are imperative methods:

- `Walk.GenerateTree` builds the tree string by appending one line at a time;
- `Walk.GeneratePrompt` builds the list of output parts by appending, then joins it.

Each method is proved equal to a pure specification: `TreeListing.RenderTree`
for the tree, and `Content.Prompt` for the prompt. The properties of the output
are proved about those specifications. The tree indents each directory by its
depth below the start path, which is the level the program evidently means.
The program's own level computation differs for some start paths (see
Findings and Left out).

Modules:

- `IgnoreRules`: the three ignore sets, the splitext model (`Ext`), and the
  keep tests for directories and files.
- `Level`: a directory's nesting level. It holds the level as the program
  computes it and the level it evidently means (see Findings).
- `ProjectTree`: the tree, directory pruning, and `Retained`, the files the
  walk keeps, each with its route below the root.
- `TreeListing`: the tree section as lines and as text.
- `Content`: the file blocks, the final join, and the token estimate.
- `Walk`: the two walking methods and the worklist bookkeeping behind their proofs.
- `Properties`: soundness and completeness of pruning, same filter in both
  stages, block layout, and prompt layout.
- `Scenarios`: small concrete projects. These check a pruned dependency folder,
  a filtered image, and an unreadable file.

## Model

| member | source | states |
|---|---|---|
| IgnoreRules.LastDot | angular_to_prompt.py:34 | the position found is a dot with no later dot, and None means the name has no dot at all |
| IgnoreRules.ExtIsSplitextSuffix | angular_to_prompt.py:34 | the extension is non-empty exactly when the name has a dot preceded by some non-dot character; it is then a suffix of the name that starts at the last dot and contains no other dot |
| IgnoreRules.ExtOfDottedName | angular_to_prompt.py:54 | a name `stem.suffix` whose stem has a non-dot character and whose suffix has no dot has the extension `.suffix` |
| IgnoreRules.Ext | angular_to_prompt.py:54 | definition: the extension `os.path.splitext` returns for one path component, the suffix from the last dot when a non-dot character precedes that dot, else empty |
| IgnoreRules.KeepDir | angular_to_prompt.py:27 | definition: a directory survives the prune when its name is not in the ignored-directory set |
| IgnoreRules.KeepFile | angular_to_prompt.py:34 | definition: a file is kept when its name is not in the ignored-file set and its extension is not in the ignored-extension set; both stages use this one test |
| ProjectTree.Pruned | angular_to_prompt.py:27 | the pruned subdirectory list holds exactly the listed subdirectories whose names are not ignored, and it is no longer than the original |
| ProjectTree.PrunedSingle | angular_to_prompt.py:27 | one subdirectory is kept by the prune exactly when its name is not ignored |
| ProjectTree.PrunedAppend | angular_to_prompt.py:27 | the prune works entry by entry in the original order: pruning two lists in a row gives the first's prune followed by the second's |
| ProjectTree.Retained | angular_to_prompt.py:48-57 | definition: the kept files of the top-down walk, in walk order, each with its route below the start directory; ignored directories are not entered |
| ProjectTree.RelPath | angular_to_prompt.py:60 | definition: the route's names and the file name joined by "/", which is the relative path of the file from the start directory |
| ProjectTree.RelPathEndsWithName | angular_to_prompt.py:60 | a relative path ends with the file's name, and is longer than the name when the file is in a subdirectory |
| Level.LevelAsWritten | angular_to_prompt.py:29 | definition: the number of separators left after every occurrence of the start path is deleted from the walked path |
| Level.RemoveAll | angular_to_prompt.py:29 | deleting every occurrence of a non-empty pattern, scanning left to right, never makes the text longer |
| Level.CountChar | angular_to_prompt.py:29 | the count of a character is at most the length, and it is zero exactly when the character does not occur |
| Level.LevelIntended | angular_to_prompt.py:29 | a directory's level is the number of path components between it and the start directory |
| Level.BelowSeparators | angular_to_prompt.py:29 | the path below the start directory holds exactly one separator per route component |
| Level.LevelAsWrittenMiscounts | angular_to_prompt.py:29 | with start "/a" and subdirectory "ab", the level as written is 0, while the directory is one level down |
| Walk.EmitDirectory | angular_to_prompt.py:30-35 | appends the directory line at its indentation, then the kept files' lines one level deeper and in listing order |
| Walk.GenerateTree | angular_to_prompt.py:22-36 | the walk's tree string is the header, then the pre-order listing of kept directories and kept files, then a final newline |
| Walk.EmitFileBlocks | angular_to_prompt.py:52-74 | appends the five-part block of every kept, readable file of one directory, in listing order, and nothing for the others |
| Walk.GeneratePrompt | angular_to_prompt.py:38-76 | the result is the tree, the contents header and every file block, joined with newlines in walk order |
| TreeListing.RenderTree | angular_to_prompt.py:22-36 | definition: the structure header, the pre-order lines of the root, its kept files and its unpruned subdirectories, each indented four spaces per level, then a final newline |
| Content.FileBlock | angular_to_prompt.py:67-71 | definition: START marker, opening fence, content, closing fence and END marker for a readable file, and nothing for a file whose read failed |
| Content.Blocks | angular_to_prompt.py:62-74 | definition: the blocks of the retained files, one after another in walk order |
| Content.Join | angular_to_prompt.py:76 | definition: the parts with the separator between each pair of neighbours, as `str.join` |
| Content.Prompt | angular_to_prompt.py:38-76 | definition: the tree, the contents header and every block part, joined with newlines |
| Content.TokenEstimate | angular_to_prompt.py:100 | the estimate n satisfies 4n <= length < 4n+4, so it is the length divided by 4 and rounded down |
| Content.BlocksAppend | angular_to_prompt.py:62-71 | the blocks of two file lists, one after the other, are the blocks of each list concatenated |
| Properties.RetainedSound | angular_to_prompt.py:48-57 | every file that gets a block lies beneath the root along a route of non-ignored directories, and its own name and extension are not ignored |
| Properties.RetainedComplete | angular_to_prompt.py:48-57 | every file beneath a route of non-ignored directories whose name and extension are kept is retained at that route |
| Properties.RetainedIff | angular_to_prompt.py:48-57 | a file is retained at a route if and only if it is in the tree at that route, no route component is an ignored directory, and the file is kept |
| Properties.NothingBeneathIgnored | angular_to_prompt.py:50 | pruning is total: no retained file has an ignored directory anywhere on its route |
| Properties.ListedDirIff | angular_to_prompt.py:25-31 | pruning is total in the tree, and empty directories are listed: below the root line, a directory line at depth n exists exactly when some route of n names leads from the root to a directory with that name, and no directory on the route has an ignored name |
| Properties.ListedDirsAreKept | angular_to_prompt.py:27 | every directory line after the first names a non-ignored directory and lies deeper than its parent (the routes are in ListedDirIff) |
| Properties.ListedFileLinesOnly | angular_to_prompt.py:33-35 | a directory's file lines are file lines, all at the same depth, for kept names only |
| Properties.KeptSubdirIsListed | angular_to_prompt.py:27-31 | a directory's own line comes first, and each of its direct non-ignored subdirectories is listed one level deeper, even when it holds no kept file |
| Properties.TreeListsRetained | angular_to_prompt.py:27-35 | the tree stage and the content stage apply the same filter: the file lines of the listing are exactly the retained files, in the same order, each one level below its directory |
| Properties.BlocksLength | angular_to_prompt.py:62-71 | every readable file contributes exactly five parts and every unreadable one none |
| Properties.BlockLayout | angular_to_prompt.py:67-71 | the k-th block is START marker, fence, content, fence, END marker, and both markers carry the same relative path of the k-th readable file |
| Properties.UnreadableFileAddsNothing | angular_to_prompt.py:62-74 | a file whose read fails leaves no partial block: the blocks are those of the other files |
| Properties.ReadableFileAddsBlock | angular_to_prompt.py:62-71 | a readable file adds exactly its five parts, at its place among the others |
| Properties.PromptLayout | angular_to_prompt.py:40-76 | the prompt is the tree, a newline, the contents header, and then, when there are blocks, a newline and the blocks joined by newlines |
| Properties.PromptStartsWithTree | angular_to_prompt.py:40-45 | the prompt starts with the whole tree section, which starts with the structure header |
| Scenarios.DependencyFolderIsPruned | angular_to_prompt.py:27 | in a project with `node_modules`, neither the folder nor its files appear in the tree or among the retained files |
| Scenarios.DependencyFolderIsSkipped | angular_to_prompt.py:50 | the same project yields the single block of `src/app.ts` |
| Scenarios.ImageIsFiltered | angular_to_prompt.py:54-56 | a `.png` file is neither listed nor given a block, while `README.md` is both |
| Scenarios.UndecodableFileIsSkipped | angular_to_prompt.py:62-74 | a file that cannot be read is still listed in the tree, gets no block, and the next file's block follows |

## Left out

- File system I/O is not modelled. A file's UTF-8 read is the `content` field of a `File`, and a failed read is `None`.
- Directory listing order is not modelled. It is the order of `files` and `subdirs` in a `Dir`.
- The "Skipping file" message printed on a read error is left out, because it only writes to the console.
- `main` is left out: argument parsing, the existence check, writing the output file, and the console messages. Only the token formula is modelled.
- `os.walk` errors and symbolic links are left out. A directory that cannot be listed, or a tree that changes between the two walks, has no counterpart in the model. Both walks see the same `Dir` value.
- Walk.GenerateTree: takes the root's printed name as the `name` field of the root `Dir`. It does not model `os.path.basename` of the start path, so the empty name that a trailing separator or "/" would print is not modelled.
- Walk.GeneratePrompt: the relative path is the route joined by "/" plus the file name. This is what `os.path.relpath` gives for a normalised absolute start path. Other start path spellings are not modelled.
- Walk.GenerateTree: requires `ProjectTree.ComponentNames`, meaning every directory name is a single non-empty path component without a separator. The file system guarantees this for real entries.
- Walk.GenerateTree: indents each directory by its depth below the start path (`Level.LevelIntended`). It does not reproduce the program's `root.replace(startpath, '').count(os.sep)`, which gives a different level when the start path occurs again inside a subdirectory's path (start "/a", subdirectory "ab" is printed with no indent) and puts every directory at level 0 when the start path is "/". The as-written level is modelled separately as `Level.LevelAsWritten`.

## Findings

| source | as written | input that shows it | evidently intended | confidence | as-written member | corrected member |
|---|---|---|---|---|---|---|
| angular_to_prompt.py:29 | the level is the number of separators left after deleting every occurrence of the start path from the walked path | start path "/a" with a subdirectory "ab": "/a/ab" becomes "b", so the level is 0 and "ab/" is printed at the root's indentation | the level is the directory's depth below the start path, here 1 | high, from the semantics of `str.replace`; not executed | Level.LevelAsWrittenMiscounts | Level.LevelIntended |
