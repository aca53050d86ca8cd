/**
  Steps 2 and 3 of `GitHubIngestService.ProcessRepositoryAsync`: list the
  cloned files, keep code files inside the size window and outside noise
  paths, truncate long ones, stop reading once the character budget is
  exceeded, then add small manifest and README files without a budget.

  The file tree is given as a sequence of full paths in enumeration order,
  each with the text a read returns (`None`: the read throws). The host is
  POSIX: the directory separator is `/`. Text lengths are .NET's
  `string.Length`, counted in UTF-16 code units (`Utf16Length`).
*/
module ContentSelection {
  import opened Wrappers
  import opened Strings

  const MaxContextChars := 60000
  const MinFileChars := 200      // exclusive lower bound
  const MaxFileChars := 30000    // exclusive upper bound
  const TruncateAt := 2000
  const TruncationMarker := "\n... [TRUNCATED]"
  const MaxIdentityChars := 5000 // exclusive upper bound

  const CodeExtensions: seq<string> :=
    [".cs", ".ts", ".js", ".go", ".py", ".java", ".rs", ".cpp", ".h", ".tsx", ".jsx", ".swift", ".kt", ".vue", ".rb"]
  const NoiseMarkers: seq<string> := ["node_modules", ".min.", "generated", "dist/"]
  const ManifestSuffixes: seq<string> := ["package.json", "go.mod", ".csproj", "Cargo.toml", "requirements.txt", "pom.xml"]

  /** A file as `Directory.GetFiles` lists it, with what reading it yields. */
  datatype TreeFile = TreeFile(fullPath: string, text: Option<string>)

  /** A listed file under its path relative to the work directory. */
  datatype Candidate = Candidate(path: string, text: Option<string>)

  /** One `fileContents[path] = content` entry. */
  datatype Entry = Entry(path: string, content: string)

  // ----- listing -----

  /** `Path.Combine(dir, name)` for a relative `name`. */
  function CombinePath(dir: string, name: string): string {
    if |dir| == 0 then name
    else if dir[|dir| - 1] == '/' then dir + name
    else dir + "/" + name
  }

  /** `TrimStart('/')`. */
  function TrimSeparators(s: string): (r: string)
    ensures |r| <= |s| && r == s[|s| - |r|..]
    ensures |r| == 0 || r[0] != '/'
    ensures forall k :: 0 <= k < |s| - |r| ==> s[k] == '/'
  {
    if |s| > 0 && s[0] == '/' then TrimSeparators(s[1..]) else s
  }

  /** The `.git` exclusion: a substring test of the full path. */
  predicate InGitDirectory(workDir: string, fullPath: string) {
    Contains(fullPath, CombinePath(workDir, ".git"))
  }

  function RelativePath(workDir: string, fullPath: string): string
    requires |workDir| <= |fullPath|
  {
    TrimSeparators(fullPath[|workDir|..])
  }

  /** A listed file under its relative path. */
  function Listed(workDir: string, f: TreeFile): Candidate
    requires |workDir| <= |f.fullPath|
  {
    Candidate(RelativePath(workDir, f.fullPath), f.text)
  }

  /** `allFiles`: the listing minus `.git` matches, as relative paths, in order. */
  function ListFiles(workDir: string, tree: seq<TreeFile>): (r: seq<Candidate>)
    requires forall i :: 0 <= i < |tree| ==> |workDir| <= |tree[i].fullPath|
    ensures |r| <= |tree|
    decreases |tree|
  {
    if |tree| == 0 then []
    else
      var rest := ListFiles(workDir, tree[1..]);
      if InGitDirectory(workDir, tree[0].fullPath) then rest
      else [Listed(workDir, tree[0])] + rest
  }

  /** A file is listed iff the `.git` test lets it through. */
  lemma ListFilesMembers(workDir: string, tree: seq<TreeFile>)
    requires forall i :: 0 <= i < |tree| ==> |workDir| <= |tree[i].fullPath|
    ensures forall c :: c in ListFiles(workDir, tree) ==>
      exists i :: 0 <= i < |tree| && !InGitDirectory(workDir, tree[i].fullPath) && c == Listed(workDir, tree[i])
    ensures forall i :: 0 <= i < |tree| && !InGitDirectory(workDir, tree[i].fullPath) ==>
      Listed(workDir, tree[i]) in ListFiles(workDir, tree)
  {
    ListFilesSound(workDir, tree);
    ListFilesComplete(workDir, tree);
  }

  lemma {:induction false} ListFilesSound(workDir: string, tree: seq<TreeFile>)
    requires forall i :: 0 <= i < |tree| ==> |workDir| <= |tree[i].fullPath|
    ensures forall c :: c in ListFiles(workDir, tree) ==>
      exists i :: 0 <= i < |tree| && !InGitDirectory(workDir, tree[i].fullPath) && c == Listed(workDir, tree[i])
    decreases |tree|
  {
    if |tree| > 0 {
      var tail := tree[1..];
      ListFilesSound(workDir, tail);
      forall c | c in ListFiles(workDir, tree)
        ensures exists i :: 0 <= i < |tree| && !InGitDirectory(workDir, tree[i].fullPath) && c == Listed(workDir, tree[i])
      {
        if c in ListFiles(workDir, tail) {
          var i :| 0 <= i < |tail| && !InGitDirectory(workDir, tail[i].fullPath) && c == Listed(workDir, tail[i]);
          assert tree[i + 1] == tail[i];
        } else {
          assert c == Listed(workDir, tree[0]);
        }
      }
    }
  }

  lemma {:induction false} ListFilesComplete(workDir: string, tree: seq<TreeFile>)
    requires forall i :: 0 <= i < |tree| ==> |workDir| <= |tree[i].fullPath|
    ensures forall i :: 0 <= i < |tree| && !InGitDirectory(workDir, tree[i].fullPath) ==>
      Listed(workDir, tree[i]) in ListFiles(workDir, tree)
    decreases |tree|
  {
    if |tree| > 0 {
      var tail := tree[1..];
      ListFilesComplete(workDir, tail);
      var rest := ListFiles(workDir, tail);
      var all := ListFiles(workDir, tree);
      assert forall c :: c in rest ==> c in all;
      forall i | 0 <= i < |tree| && !InGitDirectory(workDir, tree[i].fullPath)
        ensures Listed(workDir, tree[i]) in all
      {
        if i > 0 {
          assert tail[i - 1] == tree[i];
          assert Listed(workDir, tree[i]) in rest;
        } else {
          assert all == [Listed(workDir, tree[0])] + rest;
        }
      }
    }
  }

  /** A file whose relative path starts with `.git` is dropped, so `.github/…` and `.gitignore` go too. */
  lemma GitPrefixedPathsDropped(workDir: string, relative: string)
    requires StartsWith(relative, ".git")
    ensures InGitDirectory(workDir, CombinePath(workDir, relative))
  {
    var git := CombinePath(workDir, ".git");
    var full := CombinePath(workDir, relative);
    assert relative == ".git" + relative[4..];
    assert full == git + relative[4..];
    StartsWithContains(full, git);
  }

  /** `Where` keeps the enumeration order: the listing distributes over concatenation. */
  lemma {:induction false} ListFilesAppend(workDir: string, a: seq<TreeFile>, b: seq<TreeFile>)
    requires forall i :: 0 <= i < |a| ==> |workDir| <= |a[i].fullPath|
    requires forall i :: 0 <= i < |b| ==> |workDir| <= |b[i].fullPath|
    ensures ListFiles(workDir, a + b) == ListFiles(workDir, a) + ListFiles(workDir, b)
    decreases |a|
  {
    if |a| == 0 {
      assert a + b == b;
    } else {
      var ab := a + b;
      assert ab[0] == a[0];
      assert ab[1..] == a[1..] + b;
      ListFilesAppend(workDir, a[1..], b);
    }
  }

  /** One file is listed, under its relative path, unless it is in `.git`. */
  lemma ListFilesSingle(workDir: string, f: TreeFile)
    requires |workDir| <= |f.fullPath|
    ensures ListFiles(workDir, [f]) == if InGitDirectory(workDir, f.fullPath) then [] else [Listed(workDir, f)]
  {
    assert [f][1..] == [];
  }

  // ----- classification -----

  /** Ends, ignoring case, with one of the fifteen code extensions. */
  predicate IsCodeFile(path: string) {
    exists ext :: ext in CodeExtensions && EndsWithIgnoreCase(path, ext)
  }

  predicate IsNoisePath(path: string) {
    ContainsAny(path, NoiseMarkers)
  }

  /** Some element of `parts` occurs in `s` (`parts.Any(s.Contains)`). */
  predicate ContainsAny(s: string, parts: seq<string>)
    ensures ContainsAny(s, parts) <==> exists k :: 0 <= k < |parts| && Contains(s, parts[k])
    decreases |parts|
  {
    |parts| > 0 && (Contains(s, parts[0]) || ContainsAny(s, parts[1..]))
  }

  /** Manifests by (case-sensitive) suffix; README.md and Dockerfile only at the root, any case. */
  predicate IsIdentityFile(path: string) {
    (exists suffix :: suffix in ManifestSuffixes && EndsWith(path, suffix)) ||
    EqualsIgnoreCase(path, "README.md") || EqualsIgnoreCase(path, "Dockerfile")
  }

  function CodeFiles(files: seq<Candidate>): (r: seq<Candidate>)
    ensures forall c :: c in r <==> c in files && IsCodeFile(c.path)
    decreases |files|
  {
    if |files| == 0 then []
    else
      var rest := CodeFiles(files[1..]);
      assert forall c :: c in files <==> c == files[0] || c in files[1..];
      if IsCodeFile(files[0].path) then [files[0]] + rest else rest
  }

  function IdentityFiles(files: seq<Candidate>): (r: seq<Candidate>)
    ensures forall c :: c in r <==> c in files && IsIdentityFile(c.path)
    decreases |files|
  {
    if |files| == 0 then []
    else
      var rest := IdentityFiles(files[1..]);
      assert forall c :: c in files <==> c == files[0] || c in files[1..];
      if IsIdentityFile(files[0].path) then [files[0]] + rest else rest
  }

  /** `Where` keeps the order of the listing. */
  lemma {:induction false} CodeFilesAppend(a: seq<Candidate>, b: seq<Candidate>)
    ensures CodeFiles(a + b) == CodeFiles(a) + CodeFiles(b)
    decreases |a|
  {
    if |a| == 0 {
      assert a + b == b;
    } else {
      var ab := a + b;
      assert ab[0] == a[0];
      assert ab[1..] == a[1..] + b;
      CodeFilesAppend(a[1..], b);
    }
  }

  lemma CodeFilesSingle(c: Candidate)
    ensures CodeFiles([c]) == if IsCodeFile(c.path) then [c] else []
  {
    assert [c][1..] == [];
  }

  /** `Where` keeps the order of the listing. */
  lemma {:induction false} IdentityFilesAppend(a: seq<Candidate>, b: seq<Candidate>)
    ensures IdentityFiles(a + b) == IdentityFiles(a) + IdentityFiles(b)
    decreases |a|
  {
    if |a| == 0 {
      assert a + b == b;
    } else {
      var ab := a + b;
      assert ab[0] == a[0];
      assert ab[1..] == a[1..] + b;
      IdentityFilesAppend(a[1..], b);
    }
  }

  lemma IdentityFilesSingle(c: Candidate)
    ensures IdentityFiles([c]) == if IsIdentityFile(c.path) then [c] else []
  {
    assert [c][1..] == [];
  }

  /**
    Content longer than 2000 code units keeps its first 2000 units
    (`Substring(0, 2000)`) and gains the marker: at most 2016 units in all.
  */
  function Truncate(content: string): (r: string)
    ensures Utf16Length(content) <= TruncateAt ==> r == content
    ensures Utf16Length(r) <= TruncateAt + |TruncationMarker|
  {
    if Utf16Length(content) > TruncateAt then
      var kept := Utf16Prefix(content, TruncateAt);
      MarkerLength();
      Utf16LengthAppend(kept, TruncationMarker);
      kept + TruncationMarker
    else content
  }

  lemma MarkerLength()
    ensures Utf16Length(TruncationMarker) == |TruncationMarker|
  {
    assert InBmp(TruncationMarker);
    Utf16LengthBmp(TruncationMarker);
  }

  /**
    Cut content is its longest prefix of whole characters within 2000 code
    units, followed by the marker.
  */
  lemma TruncateKeepsPrefix(content: string)
    requires Utf16Length(content) > TruncateAt
    ensures var r := Truncate(content);
      |TruncationMarker| <= |r| && EndsWith(r, TruncationMarker) &&
      var kept := r[..|r| - |TruncationMarker|];
      |kept| < |content| && kept == content[..|kept|] &&
      Utf16Length(kept) <= TruncateAt < Utf16Length(content[..|kept| + 1])
  {
    var kept := Utf16Prefix(content, TruncateAt);
    var r := kept + TruncationMarker;
    assert Truncate(content) == r;
    assert r[..|kept|] == kept;
    assert r[|r| - |TruncationMarker|..] == TruncationMarker;
    assert content[..|content|] == content;
  }

  /** What the code loop stores for one file, if anything. */
  function Accept(file: Candidate): Option<string> {
    if file.text.Some? && MinFileChars < Utf16Length(file.text.value) < MaxFileChars && !IsNoisePath(file.path)
    then Some(Truncate(file.text.value))
    else None
  }

  // ----- the insertion-ordered dictionary -----

  function Paths(d: seq<Entry>): (r: seq<string>)
    ensures |r| == |d| && forall i :: 0 <= i < |d| ==> r[i] == d[i].path
  {
    seq(|d|, i requires 0 <= i < |d| => d[i].path)
  }

  /** Where `path` is stored, if it is. */
  function PathIndex(d: seq<Entry>, path: string): (r: Option<nat>)
    ensures r.None? <==> path !in Paths(d)
    ensures r.Some? ==> (r.value < |d| && d[r.value].path == path &&
      forall j :: 0 <= j < r.value ==> d[j].path != path)
    decreases |d|
  {
    if |d| == 0 then None
    else if d[0].path == path then Some(0)
    else
      assert Paths(d) == [d[0].path] + Paths(d[1..]);
      match PathIndex(d[1..], path)
      case None => None
      case Some(k) => Some(k + 1)
  }

  /** `d.TryGetValue(path, …)`. */
  function Lookup(d: seq<Entry>, path: string): (r: Option<string>)
    ensures r.None? <==> path !in Paths(d)
    ensures r.Some? ==> Entry(path, r.value) in d
  {
    match PathIndex(d, path)
    case None => None
    case Some(k) => Some(d[k].content)
  }

  /**
    `d[path] = content` on a `Dictionary` that never removes: an existing key
    is updated where it stands, a new key goes last.
  */
  function Upsert(d: seq<Entry>, path: string, content: string): (r: seq<Entry>)
    ensures path in Paths(d) ==> Paths(r) == Paths(d)
    ensures path !in Paths(d) ==> r == d + [Entry(path, content)]
  {
    match PathIndex(d, path)
    case None => d + [Entry(path, content)]
    case Some(k) =>
      var r := d[k := Entry(path, content)];
      assert Paths(r) == Paths(d);
      r
  }

  /** The key written reads back the value written. */
  lemma UpsertLookup(d: seq<Entry>, path: string, content: string)
    ensures Lookup(Upsert(d, path, content), path) == Some(content)
  {
    var r := Upsert(d, path, content);
    match PathIndex(d, path)
    case None =>
      assert Paths(r) == Paths(d) + [path];
      assert PathIndex(r, path) == Some(|d|);
    case Some(k) =>
      assert r == d[k := Entry(path, content)];
      assert PathIndex(r, path) == Some(k);
  }

  /** The first entry under `p` decides the lookup. */
  lemma LookupFirst(d: seq<Entry>, p: string, j: nat)
    requires j < |d| && d[j].path == p
    requires forall i :: 0 <= i < j ==> d[i].path != p
    ensures Lookup(d, p) == Some(d[j].content)
  {
    assert Paths(d)[j] == p;
    var k := PathIndex(d, p).value;
    assert k == j;
  }

  /** Other keys keep their values. */
  lemma UpsertOthers(d: seq<Entry>, path: string, content: string, other: string)
    requires other != path
    ensures Lookup(Upsert(d, path, content), other) == Lookup(d, other)
  {
    var r := Upsert(d, path, content);
    var e := Entry(path, content);
    if path in Paths(d) {
      var k := PathIndex(d, path).value;
      assert r == d[k := e];
    } else {
      assert r == d + [e];
    }
    assert forall j :: 0 <= j < |d| && d[j].path == other ==> r[j] == d[j];
    assert forall j :: 0 <= j < |r| ==> (r[j].path == other <==> j < |d| && d[j].path == other);
    if other in Paths(d) {
      var j := PathIndex(d, other).value;
      LookupFirst(r, other, j);
    } else {
      assert other !in Paths(r);
    }
  }

  /** Every entry afterwards was there before or is the one written; no key is lost. */
  lemma UpsertEntries(d: seq<Entry>, path: string, content: string)
    ensures forall e :: e in Upsert(d, path, content) ==> e in d || e == Entry(path, content)
    ensures path in Paths(Upsert(d, path, content))
    ensures forall p :: p in Paths(d) ==> p in Paths(Upsert(d, path, content))
  {
    var r := Upsert(d, path, content);
    if path !in Paths(d) {
      assert Paths(r) == Paths(d) + [path];
    } else {
      var k := PathIndex(d, path).value;
      assert r == d[k := Entry(path, content)];
    }
  }

  // ----- the two reading loops, as functions -----

  /** The code loop from a given state: `break` once `totalChars` exceeds the budget. */
  function CodePass(files: seq<Candidate>, d: seq<Entry>, totalChars: int): (seq<Entry>, int)
    decreases |files|
  {
    if |files| == 0 || totalChars > MaxContextChars then (d, totalChars)
    else match Accept(files[0])
      case None => CodePass(files[1..], d, totalChars)
      case Some(content) => CodePass(files[1..], Upsert(d, files[0].path, content), totalChars + Utf16Length(content))
  }

  /** The identity-file loop: no budget, anything shorter than 5000 code units, verbatim. */
  function IdentityPass(files: seq<Candidate>, d: seq<Entry>): seq<Entry>
    decreases |files|
  {
    if |files| == 0 then d
    else
      var f := files[0];
      var next := if f.text.Some? && Utf16Length(f.text.value) < MaxIdentityChars then Upsert(d, f.path, f.text.value) else d;
      IdentityPass(files[1..], next)
  }

  /** `fileContents` and `totalChars` after both loops. */
  function Selection(workDir: string, tree: seq<TreeFile>): (seq<Entry>, int)
    requires forall i :: 0 <= i < |tree| ==> |workDir| <= |tree[i].fullPath|
  {
    var all := ListFiles(workDir, tree);
    var code := CodePass(CodeFiles(all), [], 0);
    (IdentityPass(IdentityFiles(all), code.0), code.1)
  }

  /** Step 2 and 3 as the source runs them: list, classify, then the two reading loops. */
  method SelectContent(workDir: string, tree: seq<TreeFile>) returns (fileContents: seq<Entry>, totalChars: int)
    requires forall i :: 0 <= i < |tree| ==> |workDir| <= |tree[i].fullPath|
    ensures (fileContents, totalChars) == Selection(workDir, tree)
  {
    var allFiles := ListFiles(workDir, tree);
    var codeFiles := CodeFiles(allFiles);
    fileContents, totalChars := ReadCodeFiles(codeFiles);
    var configFiles := IdentityFiles(allFiles);
    fileContents := ReadIdentityFiles(configFiles, fileContents);
  }

  /** The budgeted `foreach (var file in codeFiles)` loop with its early `break`. */
  method ReadCodeFiles(codeFiles: seq<Candidate>) returns (fileContents: seq<Entry>, totalChars: int)
    ensures (fileContents, totalChars) == CodePass(codeFiles, [], 0)
  {
    fileContents := [];
    totalChars := 0;
    var i := 0;
    while i < |codeFiles|
      invariant 0 <= i <= |codeFiles|
      invariant CodePass(codeFiles[i..], fileContents, totalChars) == CodePass(codeFiles, [], 0)
    {
      if totalChars > MaxContextChars {
        break;
      }
      var file := codeFiles[i];
      assert codeFiles[i..][0] == file && codeFiles[i..][1..] == codeFiles[i + 1..];
      CodePassStep(codeFiles[i..], fileContents, totalChars);
      var accepted := ReadCodeFile(file);
      if accepted.Some? {
        fileContents := Upsert(fileContents, file.path, accepted.value);
        totalChars := totalChars + Utf16Length(accepted.value);
      }
      i := i + 1;
    }
  }

  /** The body of the `try` block: the content to store for one file, if any. */
  method ReadCodeFile(file: Candidate) returns (accepted: Option<string>)
    ensures accepted == Accept(file)
  {
    accepted := None;
    if file.text.Some? {
      var content := file.text.value;
      var length := Utf16Length(content);
      if length > MinFileChars && length < MaxFileChars && !IsNoisePath(file.path) {
        if length > TruncateAt {
          content := Utf16Prefix(content, TruncateAt) + TruncationMarker;
        }
        accepted := Some(content);
      }
    }
  }

  /** The unbudgeted `foreach (var file in configFiles)` loop. */
  method ReadIdentityFiles(configFiles: seq<Candidate>, start: seq<Entry>) returns (fileContents: seq<Entry>)
    ensures fileContents == IdentityPass(configFiles, start)
  {
    fileContents := start;
    var j := 0;
    while j < |configFiles|
      invariant 0 <= j <= |configFiles|
      invariant IdentityPass(configFiles[j..], fileContents) == IdentityPass(configFiles, start)
    {
      var file := configFiles[j];
      if file.text.Some? && Utf16Length(file.text.value) < MaxIdentityChars {
        fileContents := Upsert(fileContents, file.path, file.text.value);
      }
      assert configFiles[j..][1..] == configFiles[j + 1..];
      j := j + 1;
    }
  }

  // ----- properties -----

  /** The counter never decreases. */
  lemma {:induction false} CodePassGrows(files: seq<Candidate>, d: seq<Entry>, totalChars: int)
    ensures CodePass(files, d, totalChars).1 >= totalChars
    decreases |files|
  {
    if |files| > 0 && totalChars <= MaxContextChars {
      match Accept(files[0])
      case None => CodePassGrows(files[1..], d, totalChars);
      case Some(content) =>
        CodePassGrows(files[1..], Upsert(d, files[0].path, content), totalChars + Utf16Length(content));
    }
  }

  /** One step of the code pass while the budget is not exceeded. */
  lemma CodePassStep(files: seq<Candidate>, d: seq<Entry>, totalChars: int)
    requires 0 < |files| && totalChars <= MaxContextChars
    ensures Accept(files[0]).None? ==> CodePass(files, d, totalChars) == CodePass(files[1..], d, totalChars)
    ensures Accept(files[0]).Some? ==>
      CodePass(files, d, totalChars) ==
      CodePass(files[1..], Upsert(d, files[0].path, Accept(files[0]).value), totalChars + Utf16Length(Accept(files[0]).value))
  {
  }

  /** The budget test comes before each read, so the total overshoots 60000 by at most one truncated file. */
  lemma {:induction false} CodePassBudget(files: seq<Candidate>, d: seq<Entry>, totalChars: int)
    requires totalChars <= MaxContextChars + TruncateAt + |TruncationMarker|
    ensures CodePass(files, d, totalChars).1 <= MaxContextChars + TruncateAt + |TruncationMarker|
    decreases |files|
  {
    if |files| > 0 && totalChars <= MaxContextChars {
      var accepted := Accept(files[0]);
      AcceptBound(files[0]);
      var next := if accepted.Some? then Upsert(d, files[0].path, accepted.value) else d;
      var nextTotal := if accepted.Some? then totalChars + Utf16Length(accepted.value) else totalChars;
      assert CodePass(files, d, totalChars) == CodePass(files[1..], next, nextTotal);
      CodePassBudget(files[1..], next, nextTotal);
    }
  }

  /** An accepted code file adds at most the truncation length and the marker. */
  lemma AcceptBound(file: Candidate)
    ensures Accept(file).Some? ==> Utf16Length(Accept(file).value) <= TruncateAt + |TruncationMarker|
  {
  }

  /** Keys only accumulate, in place. */
  lemma {:induction false} CodePassKeepsPaths(files: seq<Candidate>, d: seq<Entry>, totalChars: int, path: string)
    requires path in Paths(d)
    ensures path in Paths(CodePass(files, d, totalChars).0)
    decreases |files|
  {
    if |files| > 0 && totalChars <= MaxContextChars {
      match Accept(files[0])
      case None => CodePassKeepsPaths(files[1..], d, totalChars, path);
      case Some(content) =>
        var next := Upsert(d, files[0].path, content);
        var nextTotal := totalChars + Utf16Length(content);
        assert CodePass(files, d, totalChars) == CodePass(files[1..], next, nextTotal);
        UpsertEntries(d, files[0].path, content);
        CodePassKeepsPaths(files[1..], next, nextTotal, path);
    }
  }

  /** If the budget was never exceeded, every acceptable code file was stored. */
  lemma {:induction false} CodePassCompleteUnderBudget(files: seq<Candidate>, d: seq<Entry>, totalChars: int)
    requires CodePass(files, d, totalChars).1 <= MaxContextChars
    ensures forall f :: f in files && Accept(f).Some? ==> f.path in Paths(CodePass(files, d, totalChars).0)
    decreases |files|
  {
    if |files| > 0 {
      var f, tail := files[0], files[1..];
      var result := CodePass(files, d, totalChars).0;
      var next := if Accept(f).Some? then Upsert(d, f.path, Accept(f).value) else d;
      var nextTotal := if Accept(f).Some? then totalChars + Utf16Length(Accept(f).value) else totalChars;
      assert CodePass(files, d, totalChars) == CodePass(tail, next, nextTotal) by {
        CodePassGrows(files, d, totalChars);
      }
      CodePassCompleteUnderBudget(tail, next, nextTotal);
      assert Accept(f).Some? ==> f.path in Paths(result) by {
        if Accept(f).Some? {
          UpsertEntries(d, f.path, Accept(f).value);
          CodePassKeepsPaths(tail, next, nextTotal, f.path);
        }
      }
      forall g | g in files && Accept(g).Some?
        ensures g.path in Paths(result)
      {
        if g != f {
          assert g in tail;
        }
      }
    }
  }

  /** Every stored entry was already there or is the accepted form of one of the files. */
  lemma {:induction false} CodePassSound(files: seq<Candidate>, d: seq<Entry>, totalChars: int)
    ensures forall e :: e in CodePass(files, d, totalChars).0 ==>
      e in d || exists f :: f in files && f.path == e.path && Accept(f) == Some(e.content)
    decreases |files|
  {
    if |files| > 0 && totalChars <= MaxContextChars {
      var f := files[0];
      var tail := files[1..];
      var next := if Accept(f).Some? then Upsert(d, f.path, Accept(f).value) else d;
      var nextTotal := if Accept(f).Some? then totalChars + Utf16Length(Accept(f).value) else totalChars;
      assert CodePass(files, d, totalChars) == CodePass(tail, next, nextTotal);
      CodePassSound(tail, next, nextTotal);
      if Accept(f).Some? {
        UpsertEntries(d, f.path, Accept(f).value);
      }
      forall e | e in CodePass(files, d, totalChars).0
        ensures e in d || exists g :: g in files && g.path == e.path && Accept(g) == Some(e.content)
      {
        if e in next {
          if e !in d {
            assert e == Entry(f.path, Accept(f).value);
            assert f in files;
          }
        } else {
          var g :| g in tail && g.path == e.path && Accept(g) == Some(e.content);
          assert g in files;
        }
      }
    }
  }

  /** Every entry added by the identity loop is a listed identity file, verbatim and short. */
  lemma {:induction false} IdentityPassSound(files: seq<Candidate>, d: seq<Entry>)
    ensures forall e :: e in IdentityPass(files, d) ==>
      e in d || exists f :: f in files && f.path == e.path && f.text == Some(e.content) && Utf16Length(e.content) < MaxIdentityChars
    decreases |files|
  {
    if |files| > 0 {
      var f := files[0];
      assert forall g :: g in files[1..] ==> g in files;
      var next := if f.text.Some? && Utf16Length(f.text.value) < MaxIdentityChars then Upsert(d, f.path, f.text.value) else d;
      if f.text.Some? && Utf16Length(f.text.value) < MaxIdentityChars {
        UpsertEntries(d, f.path, f.text.value);
      }
      IdentityPassSound(files[1..], next);
    }
  }

  /** Keys the identity files do not name keep their value. */
  lemma {:induction false} IdentityPassOtherPaths(files: seq<Candidate>, d: seq<Entry>, path: string)
    requires forall f :: f in files ==> f.path != path
    ensures Lookup(IdentityPass(files, d), path) == Lookup(d, path)
    decreases |files|
  {
    if |files| > 0 {
      var f := files[0];
      var next := if f.text.Some? && Utf16Length(f.text.value) < MaxIdentityChars then Upsert(d, f.path, f.text.value) else d;
      assert forall g :: g in files[1..] ==> g in files;
      if f.text.Some? && Utf16Length(f.text.value) < MaxIdentityChars {
        UpsertOthers(d, f.path, f.text.value, path);
      }
      IdentityPassOtherPaths(files[1..], next, path);
    }
  }

  /**
    With distinct paths, a short identity file ends up in the dictionary
    verbatim, overwriting any entry under the same key, whatever the budget.
  */
  lemma {:induction false} IdentityPassIncludes(files: seq<Candidate>, d: seq<Entry>, f: Candidate)
    requires forall i, j :: 0 <= i < j < |files| ==> files[i].path != files[j].path
    requires f in files && f.text.Some? && Utf16Length(f.text.value) < MaxIdentityChars
    ensures Lookup(IdentityPass(files, d), f.path) == f.text
    decreases |files|
  {
    var g := files[0];
    var next := if g.text.Some? && Utf16Length(g.text.value) < MaxIdentityChars then Upsert(d, g.path, g.text.value) else d;
    if g == f {
      assert forall h :: h in files[1..] ==> h.path != f.path by {
        forall h | h in files[1..] ensures h.path != f.path {
          var k :| 0 <= k < |files[1..]| && files[1..][k] == h;
          assert files[k + 1] == h;
        }
      }
      UpsertLookup(d, f.path, f.text.value);
      IdentityPassOtherPaths(files[1..], next, f.path);
    } else {
      assert f in files[1..];
      IdentityPassIncludes(files[1..], next, f);
    }
  }

  /**
    Every selected entry is either a code file inside the (200, 30000) window,
    off the noise paths, stored truncated, or a short identity file stored
    verbatim; and the counter stays within 60000 + 2016.
  */
  lemma SelectionSound(workDir: string, tree: seq<TreeFile>)
    requires forall i :: 0 <= i < |tree| ==> |workDir| <= |tree[i].fullPath|
    ensures Selection(workDir, tree).1 <= MaxContextChars + TruncateAt + |TruncationMarker|
    ensures forall e :: e in Selection(workDir, tree).0 ==>
      (exists f :: f in ListFiles(workDir, tree) && f.path == e.path && IsCodeFile(f.path) &&
         f.text.Some? && MinFileChars < Utf16Length(f.text.value) < MaxFileChars && !IsNoisePath(f.path) &&
         e.content == Truncate(f.text.value)) ||
      (exists f :: f in ListFiles(workDir, tree) && f.path == e.path && IsIdentityFile(f.path) &&
         f.text == Some(e.content) && Utf16Length(e.content) < MaxIdentityChars)
  {
    var all := ListFiles(workDir, tree);
    var codeFiles := CodeFiles(all);
    var identityFiles := IdentityFiles(all);
    var code := CodePass(codeFiles, [], 0);
    CodePassBudget(codeFiles, [], 0);
    CodePassSound(codeFiles, [], 0);
    IdentityPassSound(identityFiles, code.0);
    forall e | e in Selection(workDir, tree).0
      ensures
        (exists f :: f in all && f.path == e.path && IsCodeFile(f.path) &&
           f.text.Some? && MinFileChars < Utf16Length(f.text.value) < MaxFileChars && !IsNoisePath(f.path) &&
           e.content == Truncate(f.text.value)) ||
        (exists f :: f in all && f.path == e.path && IsIdentityFile(f.path) &&
           f.text == Some(e.content) && Utf16Length(e.content) < MaxIdentityChars)
    {
      if e in code.0 {
        var f :| f in codeFiles && f.path == e.path && Accept(f) == Some(e.content);
        assert f in all && IsCodeFile(f.path);
      } else {
        var f :| f in identityFiles && f.path == e.path && f.text == Some(e.content) && Utf16Length(e.content) < MaxIdentityChars;
        assert f in all && IsIdentityFile(f.path);
      }
    }
  }

  /**
    Concretely: texts of 150 and 31000 code units are outside the window, a
    25000-character text without surrogate pairs is cut to its first 2000
    characters, and an unreadable file is dropped.
  */
  lemma SizeWindowScenario(path: string, text: string)
    requires !IsNoisePath(path)
    ensures Utf16Length(text) == 150 ==> Accept(Candidate(path, Some(text))).None?
    ensures Utf16Length(text) == 31000 ==> Accept(Candidate(path, Some(text))).None?
    ensures |text| == 25000 && InBmp(text) ==>
      Accept(Candidate(path, Some(text))) == Some(text[..2000] + "\n... [TRUNCATED]")
    ensures Accept(Candidate(path, None)).None?
  {
    if |text| == 25000 && InBmp(text) {
      Utf16LengthBmp(text);
      Utf16PrefixBmp(text, TruncateAt);
    }
  }

  /**
    A character outside the Basic Multilingual Plane counts twice: 199 ASCII
    characters and one emoji make 201 code units, so the code loop keeps the
    file although it has only 200 characters.
  */
  lemma SurrogatePairCountsTwice(path: string, text: string)
    requires !IsNoisePath(path)
    requires |text| == 200 && InBmp(text[..199]) && text[199] == '\U{1F600}'
    ensures Utf16Length(text) == 201
    ensures Accept(Candidate(path, Some(text))) == Some(text)
  {
    Utf16CountPrefix(text, 199);
    Utf16LengthBmp(text[..199]);
  }

  /**
    The identity loop has neither the noise filter nor the 200-unit minimum
    of the code loop: a 100-unit `package.json` under `node_modules` is
    refused as code but stored as an identity file.
  */
  lemma NoisyManifestSelected(path: string, text: string, d: seq<Entry>)
    requires EndsWith(path, "package.json") && Contains(path, "node_modules")
    requires Utf16Length(text) == 100
    ensures IsIdentityFile(path) && IsNoisePath(path)
    ensures Accept(Candidate(path, Some(text))).None?
    ensures IdentityFiles([Candidate(path, Some(text))]) == [Candidate(path, Some(text))]
    ensures Lookup(IdentityPass(IdentityFiles([Candidate(path, Some(text))]), d), path) == Some(text)
  {
    var c := Candidate(path, Some(text));
    assert ManifestSuffixes[0] == "package.json";
    assert NoiseMarkers[0] == "node_modules";
    IdentityPassIncludes([c], d, c);
  }
}
