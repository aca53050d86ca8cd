/**
  `GitHubIngestService.ProcessRepositoryAsync`: clone, select files, build
  the prompt context, ask the model, parse its answer. The clone, the file
  system and the model call are the environment; they reach the model as a
  `CloneOutcome` value and a completion function.
*/
module IngestService {
  import opened Wrappers
  import opened Strings
  import opened JsonModel
  import opened IngestTypes
  import opened ContentSelection
  import opened ResponseParser

  /** At most this many dictionary entries are rendered into the context. */
  const MaxContextFiles := 30

  /** What `git clone --depth 1` left behind: the working tree, or the error text of a non-zero exit. */
  datatype CloneOutcome = Cloned(tree: seq<TreeFile>) | CloneFailed(stderr: string)

  const CloneFailedPrefix := "Git clone failed: "

  // ----- context assembly -----

  /**
    The line terminator `AppendLine` appends: `Environment.NewLine`, which
    is "\n" on the POSIX host this model assumes ("\r\n" on Windows).
  */
  const NewLine := "\n"

  /** The two `AppendLine` calls that open the context. */
  function ContextHeader(owner: string, repo: string): string {
    "REPOSITORY: " + owner + "/" + repo + NewLine + "CODE FILES:" + NewLine
  }

  /** One file block: a `###` heading with the path, then the content fenced as code. */
  function RenderEntry(e: Entry): string {
    "\n### " + e.path + "\n```\n" + e.content + "\n```" + NewLine
  }

  /** `fileContents.Take(30)`: the first entries in insertion order. */
  function Shown(d: seq<Entry>): (r: seq<Entry>)
    ensures |r| == if |d| <= MaxContextFiles then |d| else MaxContextFiles
    ensures r == d[..|r|]
  {
    if |d| <= MaxContextFiles then d else d[..MaxContextFiles]
  }

  function RenderAll(d: seq<Entry>): (r: seq<string>)
    ensures |r| == |d| && forall i :: 0 <= i < |d| ==> r[i] == RenderEntry(d[i])
  {
    seq(|d|, i requires 0 <= i < |d| => RenderEntry(d[i]))
  }

  /** The text handed to the model. */
  function BuildContext(owner: string, repo: string, d: seq<Entry>): string {
    ContextHeader(owner, repo) + Concat(RenderAll(Shown(d)))
  }

  method AssembleContext(owner: string, repo: string, fileContents: seq<Entry>) returns (context: string)
    ensures context == BuildContext(owner, repo, fileContents)
  {
    context := "REPOSITORY: " + owner + "/" + repo + NewLine;
    context := context + "CODE FILES:" + NewLine;
    var shown := Shown(fileContents);
    ghost var parts := RenderAll(shown);
    assert parts[..0] == [];
    for i := 0 to |shown|
      invariant context == ContextHeader(owner, repo) + Concat(parts[..i])
    {
      var line := "\n### " + shown[i].path + "\n```\n" + shown[i].content + "\n```" + NewLine;
      assert line == parts[i];
      assert parts[..i + 1][..i] == parts[..i];
      assert Concat(parts[..i + 1]) == Concat(parts[..i]) + line;
      context := context + line;
    }
    assert parts[..|shown|] == parts;
  }

  /** Every one of the first thirty selected files appears, fenced, in the context. */
  lemma ContextListsShownEntries(owner: string, repo: string, d: seq<Entry>, i: nat)
    requires i < |d| && i < MaxContextFiles
    ensures Contains(BuildContext(owner, repo, d), RenderEntry(d[i]))
  {
    var parts := RenderAll(Shown(d));
    ConcatContainsPart(parts, i);
    ContainsExtended(ContextHeader(owner, repo), Concat(parts), "", parts[i]);
    assert ContextHeader(owner, repo) + Concat(parts) + "" == BuildContext(owner, repo, d);
  }

  /** Entries past the thirtieth never reach the context. */
  lemma ContextIgnoresLaterEntries(owner: string, repo: string, d: seq<Entry>, extra: seq<Entry>)
    requires |d| >= MaxContextFiles
    ensures BuildContext(owner, repo, d + extra) == BuildContext(owner, repo, d)
  {
    assert Shown(d + extra) == Shown(d);
  }

  /** The context always opens with the repository line. */
  lemma ContextStartsWithRepository(owner: string, repo: string, d: seq<Entry>)
    ensures StartsWith(BuildContext(owner, repo, d), "REPOSITORY: " + owner + "/" + repo + NewLine)
  {
    var head := "REPOSITORY: " + owner + "/" + repo + NewLine;
    assert BuildContext(owner, repo, d) == head + ("CODE FILES:" + NewLine + Concat(RenderAll(Shown(d))));
  }

  // ----- the whole pipeline -----

  /**
    What `ProcessRepositoryAsync` returns, or the message of the exception it
    throws. `complete` is the model call, given the context, the owner and the
    repository name.
  */
  function Ingest(owner: string, repo: string, workDir: string, clone: CloneOutcome,
                  complete: (string, string, string) -> Result<string, string>,
                  deserialize: string -> Option<Json>): (r: Result<IngestResult, string>)
    requires clone.Cloned? ==> forall i :: 0 <= i < |clone.tree| ==> |workDir| <= |clone.tree[i].fullPath|
    ensures clone.CloneFailed? ==> r == Failure(CloneFailedPrefix + clone.stderr)
    ensures clone.Cloned? ==>
      var answer := complete(BuildContext(owner, repo, Selection(workDir, clone.tree).0), owner, repo);
      (answer.Failure? ==> r == Failure(answer.error)) &&
      (answer.Success? ==> r == Success(Parse(answer.value, deserialize)))
    ensures r.Success? ==> |r.value.sections| >= 1
  {
    match clone
    case CloneFailed(stderr) => Failure(CloneFailedPrefix + stderr)
    case Cloned(tree) =>
      var context := BuildContext(owner, repo, Selection(workDir, tree).0);
      match complete(context, owner, repo)
      case Failure(e) => Failure(e)
      case Success(text) => Success(Parse(text, deserialize))
  }

  method ProcessRepository(owner: string, repo: string, workDir: string, clone: CloneOutcome,
                           complete: (string, string, string) -> Result<string, string>,
                           deserialize: string -> Option<Json>)
    returns (r: Result<IngestResult, string>)
    requires clone.Cloned? ==> forall i :: 0 <= i < |clone.tree| ==> |workDir| <= |clone.tree[i].fullPath|
    ensures r == Ingest(owner, repo, workDir, clone, complete, deserialize)
    ensures r.Success? ==> |r.value.sections| >= 1
  {
    if clone.CloneFailed? {
      return Failure(CloneFailedPrefix + clone.stderr);
    }
    var fileContents, totalChars := SelectContent(workDir, clone.tree);
    var context := AssembleContext(owner, repo, fileContents);
    var answer := complete(context, owner, repo);
    if answer.Failure? {
      return Failure(answer.error);
    }
    var result := ParseAiResponse(answer.value, Paths(fileContents), deserialize);
    r := Success(result);
  }
}
