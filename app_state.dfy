/**
  Two pieces of the front end's state logic in `App.tsx`: the loading-step
  counter advanced by the ingest timer, and the repository search with its
  built-in fallback list. The timer, `fetch` and React's state setters are
  the environment: the number of timer ticks and the outcome of the search
  request are parameters.
*/
module AppState {
  import opened Strings

  // ----- loading steps -----

  /** The labels of `INGEST_STEPS`, in display order (the icons are not modelled). */
  const IngestSteps: seq<string> := [
    "Cloning repository from GitHub...",
    "Analyzing source code structure...",
    "Generating multi-document architecture...",
    "Creating document relations and diagrams..."
  ]

  const LastStep := |IngestSteps| - 1

  /** The updater passed to `setLoadingStep` on every tick: advance, but never past the last step. */
  function NextStep(prev: int): (next: int)
    ensures prev <= next
    ensures prev < LastStep ==> next == prev + 1
    ensures prev >= LastStep ==> next == prev
  {
    if prev < LastStep then prev + 1 else prev
  }

  /** The step shown after `ticks` timer ticks, starting from the reset to 0. */
  function StepAfter(ticks: nat): int {
    if ticks == 0 then 0 else NextStep(StepAfter(ticks - 1))
  }

  /** The counter climbs one step per tick and then stays on the last step. */
  lemma {:induction false} StepAfterSaturates(ticks: nat)
    ensures StepAfter(ticks) == if ticks < LastStep then ticks else LastStep
  {
    if ticks > 0 {
      StepAfterSaturates(ticks - 1);
    }
  }

  /** Every step shown is a valid index into `INGEST_STEPS`. */
  lemma StepAlwaysShown(ticks: nat)
    ensures 0 <= StepAfter(ticks) < |IngestSteps|
  {
    StepAfterSaturates(ticks);
  }

  /** Later ticks never show an earlier step. */
  lemma {:induction false} StepMonotone(t1: nat, t2: nat)
    requires t1 <= t2
    ensures StepAfter(t1) <= StepAfter(t2)
  {
    StepAfterSaturates(t1);
    StepAfterSaturates(t2);
  }

  // ----- repository search -----

  /** The front end's `RepoSearchResult`. */
  datatype RepoSearchResult = RepoSearchResult(fullName: string, description: string, stars: int, language: string)

  /** The list shown when the back end has nothing to offer. */
  const PopularRepos: seq<RepoSearchResult> := [
    RepoSearchResult("microsoft/vscode", "Visual Studio Code", 168000, "TypeScript"),
    RepoSearchResult("facebook/react", "React library", 230000, "JavaScript"),
    RepoSearchResult("microsoft/playwright", "Playwright testing", 68000, "TypeScript"),
    RepoSearchResult("router-for-me/CLIProxyAPI", "CLI Proxy API", 100, "TypeScript")
  ]

  /** `r.fullName.toLowerCase().includes(query.toLowerCase())`. */
  predicate Matches(r: RepoSearchResult, query: string) {
    Contains(Lower(r.fullName), Lower(query))
  }

  /** `repos.filter(r => Matches(r, query))`. */
  function FilterRepos(repos: seq<RepoSearchResult>, query: string): (found: seq<RepoSearchResult>)
    ensures |found| <= |repos|
    decreases |repos|
  {
    if |repos| == 0 then []
    else (if Matches(repos[0], query) then [repos[0]] else []) + FilterRepos(repos[1..], query)
  }

  /** A repository is offered exactly when it is in the list and its name matches. */
  lemma {:induction false} FilterReposExact(repos: seq<RepoSearchResult>, query: string, r: RepoSearchResult)
    ensures r in FilterRepos(repos, query) <==> r in repos && Matches(r, query)
    decreases |repos|
  {
    if |repos| > 0 {
      FilterReposExact(repos[1..], query, r);
      assert repos == [repos[0]] + repos[1..];
    }
  }

  /** Filtering keeps the list's order: it distributes over concatenation. */
  lemma {:induction false} FilterReposAppend(a: seq<RepoSearchResult>, b: seq<RepoSearchResult>, query: string)
    ensures FilterRepos(a + b, query) == FilterRepos(a, query) + FilterRepos(b, query)
    decreases |a|
  {
    if |a| > 0 {
      assert (a + b)[1..] == a[1..] + b;
      FilterReposAppend(a[1..], b, query);
    } else {
      assert a + b == b;
    }
  }

  /** The fallback offered for a query. */
  function FallbackResults(query: string): seq<RepoSearchResult> {
    FilterRepos(PopularRepos, query)
  }

  /** Queries that differ only in letter case get the same fallback. */
  lemma {:induction false} FilterCaseInsensitive(repos: seq<RepoSearchResult>, q1: string, q2: string)
    requires Lower(q1) == Lower(q2)
    ensures FilterRepos(repos, q1) == FilterRepos(repos, q2)
    decreases |repos|
  {
    if |repos| > 0 {
      FilterCaseInsensitive(repos[1..], q1, q2);
    }
  }

  /** The empty query matches every popular repository. */
  lemma EmptyQueryKeepsAll(repos: seq<RepoSearchResult>)
    ensures FilterRepos(repos, "") == repos
  {
    if |repos| > 0 {
      assert OccursAt(Lower(repos[0].fullName), Lower(""), 0);
      EmptyQueryKeepsAll(repos[1..]);
      assert repos == [repos[0]] + repos[1..];
    }
  }

  /**
    A character `String.prototype.trim` removes: the white-space characters
    and the line terminators of section 12.2 and 12.3 of ECMA-262.
  */
  predicate TrimmedChar(c: char) {
    c == '\t' || c == '\U{000B}' || c == '\U{000C}' || c == ' ' || c == '\U{00A0}' || c == '\U{FEFF}'
    || c == '\U{1680}' || ('\U{2000}' <= c <= '\U{200A}') || c == '\U{202F}' || c == '\U{205F}' || c == '\U{3000}'
    || c == '\n' || c == '\r' || c == '\U{2028}' || c == '\U{2029}'
  }

  /** `!query.trim()`: nothing but trimmed characters. */
  predicate IsBlank(query: string) {
    forall i :: 0 <= i < |query| ==> TrimmedChar(query[i])
  }

  /** How the `/api/search` request ended, with the response already mapped to `RepoSearchResult`s. */
  datatype SearchOutcome = Threw | NotOk | Ok(results: seq<RepoSearchResult>)

  /** The component state `handleSearch` touches. */
  datatype SearchState = SearchState(results: seq<RepoSearchResult>, isSearching: bool)

  /** The state after `handleSearch` for `query` has settled. */
  function Search(query: string, before: SearchState, outcome: SearchOutcome): (after: SearchState)
    ensures IsBlank(query) ==> after == before
    ensures !IsBlank(query) ==> !after.isSearching
    ensures !IsBlank(query) && outcome.Threw? ==> after.results == FallbackResults(query)
    ensures !IsBlank(query) && outcome.NotOk? ==> after.results == []
    ensures !IsBlank(query) && outcome.Ok? && |outcome.results| > 0 ==> after.results == outcome.results
    ensures !IsBlank(query) && outcome.Ok? && |outcome.results| == 0 ==> after.results == FallbackResults(query)
  {
    if IsBlank(query) then before
    else
      var results := match outcome
        case Threw => FallbackResults(query)
        case NotOk => []
        case Ok(rs) => if |rs| > 0 then rs else FallbackResults(query);
      SearchState(results, false)
  }

  /** Whatever the back end does, a non-blank search shows only back-end results or matching popular repositories. */
  lemma SearchShowsMatches(query: string, before: SearchState, outcome: SearchOutcome, r: RepoSearchResult)
    requires !IsBlank(query)
    requires r in Search(query, before, outcome).results
    ensures (outcome.Ok? && r in outcome.results) || (r in PopularRepos && Matches(r, query))
  {
    FilterReposExact(PopularRepos, query, r);
  }
}
