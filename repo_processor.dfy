/** The context builder: picks representative files from the repository
    tree, optionally fetches the contents of key manifest files, and
    assembles a bounded text context. */
module RepoProcessor {
  import opened Seqs
  import opened Text
  import opened Outcomes
  import opened GithubService

  const IgnoredDirs: set<string> := {"node_modules", ".git", "dist", "build", "__pycache__"}
  const IgnoredExtensions: set<string> := {".png", ".jpg", ".jpeg", ".gif", ".exe", ".zip", ".lock"}
  const ManifestSuffixes: seq<string> := ["package.json", "pyproject.toml", "requirements.txt"]
  const KeyFilePatterns: seq<string> := [
    "package.json", "pyproject.toml", "requirements.txt", "Cargo.toml",
    "go.mod", "build.gradle", "pom.xml", "Gemfile", "composer.json",
    "Makefile", "Dockerfile", ".gitignore", "setup.py", "tsconfig.json"]

  const MaxSelectedFiles: nat := 15
  const ReadmeLimit: nat := 8000
  const FileContentLimit: nat := 2000
  const BasicContextLimit: nat := 20000
  const AdvancedContextLimit: nat := 40000

  // ---------------------------------------------------------------------------
  // File selection

  /** Some `/`-separated component of the path, the file name included, is an ignored directory. */
  predicate InIgnoredDir(path: string) {
    exists part | part in Split(path, '/') :: part in IgnoredDirs
  }

  predicate HasIgnoredExtension(path: string) {
    exists ext | ext in IgnoredExtensions :: EndsWith(path, ext)
  }

  /** The whole path, lower-cased, starts with "readme". */
  predicate IsReadme(path: string) {
    StartsWith(Lower(path), "readme")
  }

  predicate IsManifest(path: string) {
    exists suffix | suffix in ManifestSuffixes :: EndsWith(path, suffix)
  }

  /** Top level or one directory deep. */
  predicate IsShallow(path: string) {
    Count(path, '/') <= 1
  }

  /** A path the selection loop appends when it reaches it: the two `continue`
      tests, then the three ways of being appended. */
  predicate Eligible(path: string): (ok: bool)
    ensures ok <==>
      && (forall part | part in Split(path, '/') :: part !in IgnoredDirs)
      && (forall ext | ext in IgnoredExtensions :: !EndsWith(path, ext))
      && (StartsWith(Lower(path), "readme")
          || (exists suffix | suffix in ManifestSuffixes :: EndsWith(path, suffix))
          || Count(path, '/') <= 1)
  {
    if InIgnoredDir(path) then false
    else if HasIgnoredExtension(path) then false
    else IsReadme(path) || IsManifest(path) || IsShallow(path)
  }

  /** The selected files: the first eligible paths of the tree, at most fifteen of them. */
  function Selection(tree: seq<string>): seq<string> {
    Take(Filter(Eligible, tree), MaxSelectedFiles)
  }

  /** The selection loop of `build_repository_context`: it walks the tree in
      order, appends each eligible path and stops once fifteen are selected. */
  method SelectFiles(tree: seq<string>) returns (selected: seq<string>)
    ensures selected == Selection(tree)
  {
    selected := TakeFiltered(tree, Eligible, MaxSelectedFiles);
  }

  /** At most fifteen files, and they are the first eligible paths in tree order. */
  lemma SelectionIsCappedPrefix(tree: seq<string>)
    ensures var sel := Selection(tree);
      && |sel| <= MaxSelectedFiles
      && |sel| == (if |Filter(Eligible, tree)| <= MaxSelectedFiles then |Filter(Eligible, tree)| else MaxSelectedFiles)
      && sel == Filter(Eligible, tree)[..|sel|]
  {
  }

  /** The selection is an order-preserving sub-list of the tree. */
  lemma SelectionInTreeOrder(tree: seq<string>)
    ensures IsSubsequence(Selection(tree), tree)
  {
    FilterIsSubsequence(Eligible, tree);
    TakeIsSubsequence(Filter(Eligible, tree), tree, MaxSelectedFiles);
  }

  /** Fewer than fifteen selected means every eligible path of the tree was selected. */
  lemma SelectionCompleteBelowCap(tree: seq<string>)
    requires |Selection(tree)| < MaxSelectedFiles
    ensures Selection(tree) == Filter(Eligible, tree)
    ensures forall k :: 0 <= k < |tree| && Eligible(tree[k]) ==> tree[k] in Selection(tree)
  {
    FilterMembers(Eligible, tree);
  }

  /** No selected path has an ignored component (the file name included) or an
      ignored extension, and each is a README, a manifest or a shallow path. */
  lemma SelectedPathsQualify(tree: seq<string>)
    ensures forall k :: 0 <= k < |Selection(tree)| ==>
      var path := Selection(tree)[k];
      && path in tree
      && (forall part | part in Split(path, '/') :: part !in IgnoredDirs)
      && (forall ext | ext in IgnoredExtensions :: !EndsWith(path, ext))
      && (StartsWith(Lower(path), "readme")
          || EndsWith(path, "package.json") || EndsWith(path, "pyproject.toml")
          || EndsWith(path, "requirements.txt")
          || Count(path, '/') <= 1)
  {
    var sel := Selection(tree);
    FilterMembers(Eligible, tree);
    forall k | 0 <= k < |sel|
      ensures Eligible(sel[k]) && sel[k] in tree
    {
      assert sel[k] == Filter(Eligible, tree)[k];
    }
  }

  // ---------------------------------------------------------------------------
  // Fetching key files

  /** A file whose path ends with one of the key manifest names. */
  predicate IsKeyFile(path: string) {
    exists pattern | pattern in KeyFilePatterns :: EndsWith(path, pattern)
  }

  /** The key-file comprehension over the selected files. */
  function KeyFiles(selected: seq<string>): (keys: seq<string>)
    ensures IsSubsequence(keys, selected)
    ensures forall k :: 0 <= k < |keys| ==> keys[k] in selected && IsKeyFile(keys[k])
    ensures forall k :: 0 <= k < |selected| && IsKeyFile(selected[k]) ==> selected[k] in keys
  {
    FilterIsSubsequence(IsKeyFile, selected);
    FilterMembers(IsKeyFile, selected);
    Filter(IsKeyFile, selected)
  }

  predicate Succeeded(outcome: HttpOutcome) {
    outcome.Answered? && outcome.status == 200
  }

  /** One entry of the insertion-ordered `contents` dict. */
  datatype FileEntry = FileEntry(path: string, content: string)

  function Paths(entries: seq<FileEntry>): seq<string> {
    seq(|entries|, i requires 0 <= i < |entries| => entries[i].path)
  }

  /** `contents[path] = content` on an insertion-ordered dict: an existing key
      keeps its place and gets the new value, a new key goes at the end. */
  function Put(entries: seq<FileEntry>, path: string, content: string): (r: seq<FileEntry>)
    ensures Paths(r) == if path in Paths(entries) then Paths(entries) else Paths(entries) + [path]
    ensures forall k :: 0 <= k < |r| ==>
      if r[k].path == path then r[k].content == content else k < |entries| && r[k] == entries[k]
    ensures NoDuplicates(Paths(entries)) ==> NoDuplicates(Paths(r))
  {
    if path in Paths(entries) then
      var r := seq(|entries|, i requires 0 <= i < |entries| =>
        if entries[i].path == path then FileEntry(path, content) else entries[i]);
      assert forall i | 0 <= i < |r| :: Paths(r)[i] == Paths(entries)[i];
      assert Paths(r) == Paths(entries);
      r
    else
      var r := entries + [FileEntry(path, content)];
      assert forall i | 0 <= i < |r| :: Paths(r)[i] == (Paths(entries) + [path])[i];
      assert Paths(r) == Paths(entries) + [path];
      assert forall k | 0 <= k < |entries| :: entries[k].path == Paths(entries)[k];
      r
  }

  /** The effect of one loop iteration of `fetch_file_contents`. */
  function Store(entries: seq<FileEntry>, path: string, outcome: HttpOutcome): seq<FileEntry> {
    if Succeeded(outcome) then Put(entries, path, Take(outcome.text, FileContentLimit)) else entries
  }

  /** The dict `fetch_file_contents` returns for these paths. */
  function FetchedContents(paths: seq<string>, fetch: string -> HttpOutcome): (r: seq<FileEntry>)
    ensures |r| <= |paths|
    ensures forall k :: 0 <= k < |r| ==> |r[k].content| <= FileContentLimit
    ensures NoDuplicates(Paths(r))
    decreases |paths|
  {
    if paths == [] then []
    else
      var n := |paths| - 1;
      Store(FetchedContents(paths[..n], fetch), paths[n], fetch(paths[n]))
  }

  /** `fetch_file_contents`; `fetch` stands for the GET of the file's raw URL. */
  method FetchFileContents(paths: seq<string>, fetch: string -> HttpOutcome)
    returns (contents: seq<FileEntry>)
    ensures contents == FetchedContents(paths, fetch)
  {
    contents := [];
    for i := 0 to |paths|
      invariant contents == FetchedContents(paths[..i], fetch)
    {
      var path := paths[i];
      assert paths[..i + 1][..i] == paths[..i];
      var response := fetch(path);
      if response.Answered? {
        if response.status == 200 {
          contents := Put(contents, path, Take(response.text, FileContentLimit));
        }
      }
    }
    assert paths[..|paths|] == paths;
  }

  /** Keys are unique requested paths answered with 200, each holding the first
      2000 characters of its body; every path answered with 200 is a key, so a
      failure only drops its own path. */
  lemma {:induction false} FetchedContentsSound(paths: seq<string>, fetch: string -> HttpOutcome)
    ensures var r := FetchedContents(paths, fetch);
      && NoDuplicates(Paths(r))
      && (forall k :: 0 <= k < |r| ==>
            && r[k].path in paths
            && Succeeded(fetch(r[k].path))
            && r[k].content == Take(fetch(r[k].path).text, FileContentLimit))
      && (forall k :: 0 <= k < |paths| && Succeeded(fetch(paths[k])) ==> paths[k] in Paths(r))
    decreases |paths|
  {
    if paths != [] {
      var n := |paths| - 1;
      var prev := FetchedContents(paths[..n], fetch);
      FetchedContentsSound(paths[..n], fetch);
      var r := FetchedContents(paths, fetch);
      assert paths == paths[..n] + [paths[n]];
      forall k | 0 <= k < |r|
        ensures r[k].path in paths && Succeeded(fetch(r[k].path))
        ensures r[k].content == Take(fetch(r[k].path).text, FileContentLimit)
      {
        if Succeeded(fetch(paths[n])) && r[k].path != paths[n] {
          assert r[k] == prev[k];
        }
      }
      forall k | 0 <= k < |paths| && Succeeded(fetch(paths[k]))
        ensures paths[k] in Paths(r)
      {
        if k < n {
          assert paths[k] == paths[..n][k];
        }
      }
    }
  }

  /** With distinct paths, the dict keys are the successful paths in request order. */
  lemma {:induction false} FetchedContentsOrder(paths: seq<string>, fetch: string -> HttpOutcome)
    requires NoDuplicates(paths)
    ensures Paths(FetchedContents(paths, fetch)) == Filter((p: string) => Succeeded(fetch(p)), paths)
    decreases |paths|
  {
    if paths != [] {
      var n := |paths| - 1;
      FetchedContentsOrder(paths[..n], fetch);
      FetchedContentsSound(paths[..n], fetch);
      var prev := FetchedContents(paths[..n], fetch);
      forall k | 0 <= k < |prev|
        ensures prev[k].path != paths[n]
      {
        var j :| 0 <= j < n && paths[..n][j] == prev[k].path;
        assert paths[j] != paths[n];
      }
    }
  }

  /** The result depends on the fetcher only at the requested paths. */
  lemma {:induction false} FetchedContentsLocal(paths: seq<string>, f1: string -> HttpOutcome,
                                                f2: string -> HttpOutcome)
    requires forall k :: 0 <= k < |paths| ==> f1(paths[k]) == f2(paths[k])
    ensures FetchedContents(paths, f1) == FetchedContents(paths, f2)
    decreases |paths|
  {
    if paths != [] {
      var n := |paths| - 1;
      FetchedContentsLocal(paths[..n], f1, f2);
      assert f1(paths[n]) == f2(paths[n]);
    }
  }

  // ---------------------------------------------------------------------------
  // Assembly

  /** `repo_data["tree"].get("tree", [])` */
  function TreePaths(data: RepoData): seq<string> {
    match data.tree
    case Some(paths) => paths
    case None => []
  }

  /** The seven parts every context starts with. */
  function BaseParts(data: RepoData, selected: seq<string>, render: seq<string> -> string): seq<string> {
    [ "Repository: " + data.owner + "/" + data.repo,
      "",
      "README:",
      Take(data.readme, ReadmeLimit),
      "",
      "Selected files:",
      render(selected) ]
  }

  function Block(entry: FileEntry): seq<string> {
    ["\n--- " + entry.path + " ---", entry.content, "--- end ---"]
  }

  function FileBlocks(entries: seq<FileEntry>): seq<string>
    decreases |entries|
  {
    if entries == [] then []
    else FileBlocks(entries[..|entries| - 1]) + Block(entries[|entries| - 1])
  }

  /** The list `context_parts` just before it is joined; `render` stands for
      `str(selected_files)`. */
  function ContextParts(data: RepoData, advanced: bool, fetch: string -> HttpOutcome,
                        render: seq<string> -> string): (r: seq<string>)
    ensures |r| >= 7 && r[..7] == BaseParts(data, Selection(TreePaths(data)), render)
    ensures !advanced ==> |r| == 7
    ensures |r| != 7 ==>
      && advanced
      && |r| == 9 + 3 * |FetchedContents(KeyFiles(Selection(TreePaths(data))), fetch)|
      && |r| >= 12 && r[7] == "" && r[8] == "File Contents:"
  {
    var selected := Selection(TreePaths(data));
    var base := BaseParts(data, selected, render);
    if !advanced then base
    else
      var keyFiles := KeyFiles(selected);
      if keyFiles == [] then base
      else
        var contents := FetchedContents(keyFiles, fetch);
        if contents == [] then base
        else
          PartsAfterBase(base, contents);
          base + ["", "File Contents:"] + FileBlocks(contents)
  }

  function MaxContextLength(advanced: bool): nat {
    if advanced then AdvancedContextLimit else BasicContextLimit
  }

  /** The loop that appends one labelled block per fetched file. */
  method AppendFileBlocks(parts: seq<string>, contents: seq<FileEntry>) returns (extended: seq<string>)
    ensures extended == parts + FileBlocks(contents)
  {
    extended := parts;
    for i := 0 to |contents|
      invariant extended == parts + FileBlocks(contents[..i])
    {
      assert contents[..i + 1][..i] == contents[..i];
      extended := extended + ["\n--- " + contents[i].path + " ---"];
      extended := extended + [contents[i].content];
      extended := extended + ["--- end ---"];
    }
    assert contents[..|contents|] == contents;
  }

  /** The part of `build_repository_context` that fills `context_parts`: the
      selection loop, the base parts and, in advanced mode, the file blocks. */
  method BuildContextParts(data: RepoData, advanced: bool, fetch: string -> HttpOutcome,
                           render: seq<string> -> string)
    returns (parts: seq<string>)
    ensures parts == ContextParts(data, advanced, fetch, render)
  {
    var tree := TreePaths(data);
    var selected := SelectFiles(tree);
    var readmeTruncated := Take(data.readme, ReadmeLimit);
    parts := [
      "Repository: " + data.owner + "/" + data.repo,
      "",
      "README:",
      readmeTruncated,
      "",
      "Selected files:",
      render(selected)];
    assert parts == BaseParts(data, selected, render);
    if advanced {
      var keyFiles := KeyFiles(selected);
      if keyFiles != [] {
        var contents := FetchFileContents(keyFiles, fetch);
        if contents != [] {
          parts := parts + [""];
          parts := parts + ["File Contents:"];
          parts := AppendFileBlocks(parts, contents);
        }
      }
    }
  }

  /** `build_repository_context`. The returned context is a prefix of the
      newline-joined parts, no longer than the mode's limit, and all of it when it fits. */
  method BuildRepositoryContext(data: RepoData, advanced: bool, fetch: string -> HttpOutcome,
                                render: seq<string> -> string)
    returns (context: string)
    ensures context == Take(Join(ContextParts(data, advanced, fetch, render), "\n"), MaxContextLength(advanced))
    ensures |context| <= MaxContextLength(advanced)
    ensures StartsWith(Join(ContextParts(data, advanced, fetch, render), "\n"), context)
    ensures |Join(ContextParts(data, advanced, fetch, render), "\n")| <= MaxContextLength(advanced) ==>
      context == Join(ContextParts(data, advanced, fetch, render), "\n")
  {
    var parts := BuildContextParts(data, advanced, fetch, render);
    var joined := Join(parts, "\n");
    var maxLength := MaxContextLength(advanced);
    context := Take(joined, maxLength);
  }

  /** The README part is `readme[:8000]`: at most 8000 characters, a prefix of
      the README, the whole README when it fits, exactly 8000 characters otherwise. */
  lemma ReadmeTruncated(data: RepoData, advanced: bool, fetch: string -> HttpOutcome,
                        render: seq<string> -> string)
    ensures var part := ContextParts(data, advanced, fetch, render)[3];
      && |part| <= ReadmeLimit
      && StartsWith(data.readme, part)
      && (|data.readme| <= ReadmeLimit ==> part == data.readme)
      && (|data.readme| > ReadmeLimit ==> |part| == ReadmeLimit)
  {
  }

  /** In basic mode nothing is fetched: the parts are the seven base parts
      whatever the fetcher answers. */
  lemma BasicModeFetchesNothing(data: RepoData, f1: string -> HttpOutcome, f2: string -> HttpOutcome,
                                render: seq<string> -> string)
    ensures ContextParts(data, false, f1, render) == ContextParts(data, false, f2, render)
    ensures |ContextParts(data, false, f1, render)| == 7
    ensures ContextParts(data, false, f1, render) == BaseParts(data, Selection(TreePaths(data)), render)
  {
  }

  /** In advanced mode only the key files among the selected files are fetched:
      fetchers that agree on them give the same parts. */
  lemma AdvancedModeFetchesOnlyKeyFiles(data: RepoData, f1: string -> HttpOutcome,
                                        f2: string -> HttpOutcome, render: seq<string> -> string)
    requires forall p | p in KeyFiles(Selection(TreePaths(data))) :: f1(p) == f2(p)
    ensures ContextParts(data, true, f1, render) == ContextParts(data, true, f2, render)
  {
    var keyFiles := KeyFiles(Selection(TreePaths(data)));
    FetchedContentsLocal(keyFiles, f1, f2);
  }

  /** The block for entry k: its header line, its content and its end line. */
  lemma {:induction false} FileBlocksShape(entries: seq<FileEntry>)
    ensures |FileBlocks(entries)| == 3 * |entries|
    ensures forall k :: 0 <= k < |entries| ==>
      && FileBlocks(entries)[3 * k] == "\n--- " + entries[k].path + " ---"
      && FileBlocks(entries)[3 * k + 1] == entries[k].content
      && FileBlocks(entries)[3 * k + 2] == "--- end ---"
    decreases |entries|
  {
    if entries != [] {
      var n := |entries| - 1;
      FileBlocksShape(entries[..n]);
      forall k | 0 <= k < n
        ensures entries[k] == entries[..n][k]
      {
      }
    }
  }

  /** Seven base parts, the heading pair and at least one block of three. */
  lemma PartsAfterBase(base: seq<string>, contents: seq<FileEntry>)
    requires |base| == 7 && contents != []
    ensures var r := base + ["", "File Contents:"] + FileBlocks(contents);
      |r| == 9 + 3 * |contents| && r[..7] == base && r[7] == "" && r[8] == "File Contents:"
  {
    FileBlocksShape(contents);
    var r := base + ["", "File Contents:"] + FileBlocks(contents);
    assert r[..7] == base;
  }

  /** Nine head parts followed by the file blocks: block k starts at part 9 + 3k. */
  lemma BlocksAfterHead(head: seq<string>, contents: seq<FileEntry>)
    requires |head| == 9
    ensures var parts := head + FileBlocks(contents);
      && |parts| == 9 + 3 * |contents|
      && parts[..9] == head
      && forall k :: 0 <= k < |contents| ==>
           && parts[9 + 3 * k] == "\n--- " + contents[k].path + " ---"
           && parts[10 + 3 * k] == contents[k].content
  {
    FileBlocksShape(contents);
    var parts := head + FileBlocks(contents);
    forall k | 0 <= k < |contents|
      ensures parts[9 + 3 * k] == FileBlocks(contents)[3 * k]
      ensures parts[10 + 3 * k] == FileBlocks(contents)[3 * k + 1]
    {
    }
  }

  /** In advanced mode, when some key file was fetched, the parts are the base
      parts, a "File Contents:" heading and one block per fetched key file, whose
      content is at most 2000 characters of that file's body. */
  lemma AdvancedContentsBlock(data: RepoData, fetch: string -> HttpOutcome, render: seq<string> -> string)
    ensures var selected := Selection(TreePaths(data));
      var contents := FetchedContents(KeyFiles(selected), fetch);
      var parts := ContextParts(data, true, fetch, render);
      && (contents == [] ==> parts == BaseParts(data, selected, render))
      && (contents != [] ==>
            && |parts| == 9 + 3 * |contents|
            && parts[..9] == BaseParts(data, selected, render) + ["", "File Contents:"]
            && forall k :: 0 <= k < |contents| ==>
                 && parts[9 + 3 * k] == "\n--- " + contents[k].path + " ---"
                 && parts[10 + 3 * k] == contents[k].content
                 && |contents[k].content| <= FileContentLimit
                 && contents[k].path in selected
                 && IsKeyFile(contents[k].path)
                 && Succeeded(fetch(contents[k].path)))
  {
    var selected := Selection(TreePaths(data));
    var contents := FetchedContents(KeyFiles(selected), fetch);
    AdvancedPartsUnfold(data, fetch, render);
    if contents != [] {
      var head := BaseParts(data, selected, render) + ["", "File Contents:"];
      BlocksAfterHead(head, contents);
      FetchedKeyFilesQualify(selected, fetch);
    }
  }

  /** The advanced-mode parts: the base parts, followed by the heading pair and
      the blocks when some key file was fetched. */
  lemma AdvancedPartsUnfold(data: RepoData, fetch: string -> HttpOutcome, render: seq<string> -> string)
    ensures var selected := Selection(TreePaths(data));
      var contents := FetchedContents(KeyFiles(selected), fetch);
      ContextParts(data, true, fetch, render) ==
        if contents == [] then BaseParts(data, selected, render)
        else BaseParts(data, selected, render) + ["", "File Contents:"] + FileBlocks(contents)
  {
  }

  /** Every fetched key file is a selected key file answered with 200, cut to 2000 characters. */
  lemma FetchedKeyFilesQualify(selected: seq<string>, fetch: string -> HttpOutcome)
    ensures var contents := FetchedContents(KeyFiles(selected), fetch);
      forall k :: 0 <= k < |contents| ==>
        && |contents[k].content| <= FileContentLimit
        && contents[k].path in selected
        && IsKeyFile(contents[k].path)
        && Succeeded(fetch(contents[k].path))
  {
    var keyFiles := KeyFiles(selected);
    var contents := FetchedContents(keyFiles, fetch);
    FetchedContentsSound(keyFiles, fetch);
    forall k | 0 <= k < |contents|
      ensures contents[k].path in selected && IsKeyFile(contents[k].path)
    {
      var j :| 0 <= j < |keyFiles| && keyFiles[j] == contents[k].path;
    }
  }
}
