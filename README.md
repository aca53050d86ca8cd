# OpenWiki ingestion core, modelled in Dafny

OpenWiki turns a GitHub repository into browsable documentation. The back end works in four steps:

1. It shallow-clones the repository.
2. It selects and budgets the source files and reads them into an insertion-ordered dictionary.
3. It renders the first thirty entries into a prompt context and asks a language model for a JSON document graph. The graph holds an overview, sections, relations and diagrams.
4. It parses the model's answer defensively. If the answer cannot be parsed, it falls back to a document whose single section is the raw answer.

The HTTP handlers then store the sections with their position and a slug. They join the sections into one Markdown document and append the diagrams. They read the sections back in position order for cached requests.

The React front end does the following:

- It re-splits the Markdown document into sections.
- It slugifies titles.
- It draws the relations as a Mermaid graph.
- It advances a loading-step indicator on a timer.
- It falls back to a fixed list of popular repositories when the search endpoint fails or returns nothing.

The model has one module per file:

| module | file | part of the system |
|---|---|---|
| `Wrappers` | `wrappers.dfy` | `Option` and `Result` |
| `Strings` | `strings.dfy` | ASCII lower-casing, ordinal `Contains` / `EndsWith`, `Join` / `Split` with their round trips, literal `Replace`, UTF-16 length and prefix, decimal rendering |
| `JsonModel` | `json.dfy` | the `JsonElement` accessors: `None` wherever .NET throws |
| `IngestTypes` | `ingest_types.dfy` | `IngestResult` and its records, with the C# default values |
| `ContentSelection` | `content_selection.dfy` | file listing, code and identity passes, truncation, the dictionary |
| `ResponseParser` | `response_parser.dfy` | `ParseAiResponse`: the imperative method and the function `Parse` it is proved equal to |
| `ParseProperties` | `parse_properties.dfy` | what `Parse` yields for well-formed, malformed and missing input |
| `IngestService` | `ingest_service.dfy` | prompt context assembly and the whole `ProcessRepositoryAsync` pipeline |
| `DocumentApi` | `document_api.dfy` | rendering, diagram appendix, stored rows, ordered read-back, the indexed test, ingest response counts |
| `AppText` | `app_text.dfy` | `slugify` and `parseSections` |
| `Mindmap` | `mindmap.dfy` | `generateMindmap` |
| `IngestView` | `ingest_view.dfy` | what the front end stores from a fresh ingest response and draws from it |
| `AppState` | `app_state.dfy` | the loading-step updater and `handleSearch` |

Every method whose source works step by step is proved equal to a specification function. Its loop is kept and its loop invariants are proved. The properties are then proved about that function. The methods are:

- `ParseAiResponse`, `SelectContent`, `AssembleContext`, `ParseSectionsLoop`, `GenerateMindmap`;
- `AppendDiagrams`, `SaveSections`, `CompleteIngest`.

## Model

| member | source | states |
|---|---|---|
| `Strings.Lower` | frontend/src/App.tsx:67 | `toLowerCase` maps each character to its ASCII lower case, keeping the length |
| `Strings.LowerIdempotent` | frontend/src/App.tsx:181 | lower-casing twice is lower-casing once |
| `Strings.Split` | frontend/src/App.tsx:264 | `split('\n')` gives at least one piece, none containing the separator |
| `Strings.JoinSplit` | frontend/src/App.tsx:264 | joining the pieces with the separator gives back the text |
| `Strings.SplitJoin` | frontend/src/App.tsx:275 | splitting separator-free pieces joined by the separator gives back the pieces |
| `Strings.DecimalString` | frontend/src/App.tsx:279 | `'section-' + idx` renders the index as a non-empty string of digits |
| `Strings.DecimalRoundTrip` | frontend/src/App.tsx:279 | the decimal rendering reads back as the same number |
| `Strings.DecimalInjective` | frontend/src/App.tsx:279 | different indices render differently |
| `Strings.ReplaceCharRemoves` | backend/DeepWiki.Api/Program.cs:234 | `Replace(" ", "-")` leaves no space |
| `Strings.ReplaceCharPointwise` | backend/DeepWiki.Api/Program.cs:234 | replacing one character by another works position by position |
| `Strings.ReplaceSkipsPrefix` | backend/DeepWiki.Api/Program.cs:234 | text that cannot start the pattern is copied unchanged |
| `Strings.ReplaceAllChars` | backend/DeepWiki.Api/Program.cs:234 | a character absent from text and replacement is absent from the result |
| `Strings.Utf16Length` | backend/DeepWiki.Api/Services/GitHubIngestService.cs:105 | `content.Length` counts UTF-16 code units: between one and two per character |
| `Strings.Utf16LengthBmp` | backend/DeepWiki.Api/Services/GitHubIngestService.cs:105 | without characters outside the Basic Multilingual Plane, `Length` is the number of characters |
| `Strings.Utf16LengthAppend` | backend/DeepWiki.Api/Services/GitHubIngestService.cs:111-113 | the length of a concatenation is the sum of the lengths |
| `Strings.Utf16Prefix` | backend/DeepWiki.Api/Services/GitHubIngestService.cs:111 | `Substring(0, n)` on whole characters: a prefix of at most n code units, and the longest one |
| `Strings.Utf16PrefixBmp` | backend/DeepWiki.Api/Services/GitHubIngestService.cs:111 | without surrogate pairs, the prefix is exactly the first n characters |
| `JsonModel.TryGetProperty` | backend/DeepWiki.Api/Services/GitHubIngestService.cs:190 | fails exactly on a non-object; is absent exactly when the name is missing; otherwise yields that property |
| `JsonModel.GetProperty` | backend/DeepWiki.Api/Services/GitHubIngestService.cs:210 | succeeds exactly when the element is an object holding the name, and yields that value |
| `JsonModel.GetString` | backend/DeepWiki.Api/Services/GitHubIngestService.cs:232 | null gives a null string, a JSON string gives its text, and any other kind throws |
| `JsonModel.StringOr` | backend/DeepWiki.Api/Services/GitHubIngestService.cs:210 | `GetString() ?? fallback`: a string gives its text, null gives the fallback, and any other kind throws |
| `JsonModel.GetInt32` | backend/DeepWiki.Api/Services/GitHubIngestService.cs:213 | succeeds exactly on an integral number within the 32-bit range, and yields it |
| `JsonModel.EnumerateArray` | backend/DeepWiki.Api/Services/GitHubIngestService.cs:206 | succeeds exactly on an array, and yields its items in order |
| `ResponseParser.JsonCandidate` | backend/DeepWiki.Api/Services/GitHubIngestService.cs:184-185 | a match exists iff some `{` comes before some `}`. The match runs from the first `{` to the last `}` (greedy `\{[\s\S]*\}`) |
| `ResponseParser.FirstIndexOf` | backend/DeepWiki.Api/Services/GitHubIngestService.cs:184 | absent iff the character does not occur; otherwise the index of its first occurrence |
| `ResponseParser.LastIndexOf` | backend/DeepWiki.Api/Services/GitHubIngestService.cs:184 | absent iff the character does not occur; otherwise the index of its last occurrence |
| `ResponseParser.NoBracePair` | backend/DeepWiki.Api/Services/GitHubIngestService.cs:184 | when the last `}` does not follow the first `{`, no `{` precedes any `}`, so the pattern cannot match |
| `ResponseParser.SpanWitness` | backend/DeepWiki.Api/Services/GitHubIngestService.cs:184 | the first-`{` to last-`}` span is a span of the kind the pattern matches |
| `ResponseParser.RelatedFiles` | backend/DeepWiki.Api/Services/GitHubIngestService.cs:215-217 | succeeds iff every item is a string or null. The result keeps exactly the non-empty strings; nulls and empty strings are dropped |
| `ResponseParser.ParseEach` | backend/DeepWiki.Api/Services/GitHubIngestService.cs:206-219 | parses items in order and stops at the first that throws. Everything before that item is kept, and the failure flag says whether one threw |
| `ResponseParser.ParseEachDetermined` | backend/DeepWiki.Api/Services/GitHubIngestService.cs:206-219 | any prefix of parsed items with a correct failure flag is the result of `ParseEach` (uniqueness) |
| `ResponseParser.Parse` | backend/DeepWiki.Api/Services/GitHubIngestService.cs:177-280 | the parsed graph always has at least one section |
| `ResponseParser.AppendParsed` | backend/DeepWiki.Api/Services/GitHubIngestService.cs:206-219 | the `foreach` appends exactly the items `ParseEach` parses and reports whether one threw |
| `ResponseParser.ApplyOverview` | backend/DeepWiki.Api/Services/GitHubIngestService.cs:190-201 | the overview block's effect on the result equals the stage function `WithOverview` |
| `ResponseParser.ApplySections` | backend/DeepWiki.Api/Services/GitHubIngestService.cs:204-220 | the sections block equals `WithSections` |
| `ResponseParser.ApplyRelations` | backend/DeepWiki.Api/Services/GitHubIngestService.cs:223-235 | the relations block equals `WithRelations` |
| `ResponseParser.ApplyDiagrams` | backend/DeepWiki.Api/Services/GitHubIngestService.cs:238-249 | the diagrams block equals `WithDiagrams` |
| `ResponseParser.ParseAiResponse` | backend/DeepWiki.Api/Services/GitHubIngestService.cs:177-280 | the method, with its try/catch and final guard, computes `Parse` and never returns an empty section list |
| `ParseProperties.OverviewStage` | backend/DeepWiki.Api/Services/GitHubIngestService.cs:190-201 | a string overview becomes the overview and is appended as a level-1 "Overview" section |
| `ParseProperties.SectionsStage` | backend/DeepWiki.Api/Services/GitHubIngestService.cs:204-220 | an array of sections appends its parsed prefix and fails at the first malformed element |
| `ParseProperties.RelationsStage` | backend/DeepWiki.Api/Services/GitHubIngestService.cs:223-235 | the same for relations |
| `ParseProperties.DiagramsStage` | backend/DeepWiki.Api/Services/GitHubIngestService.cs:238-249 | the same for diagrams |
| `ParseProperties.CandidateFields` | backend/DeepWiki.Api/Services/GitHubIngestService.cs:184-187 | a deserialisable match is parsed field by field |
| `ParseProperties.FieldsThroughRelations` | backend/DeepWiki.Api/Services/GitHubIngestService.cs:189-235 | well-formed overview, sections and relations leave the overview section, the sections and the relations in order for the diagrams stage |
| `ParseProperties.AllFieldsParsed` | backend/DeepWiki.Api/Services/GitHubIngestService.cs:189-249 | four well-formed fields give overview, overview section plus sections, relations and diagrams, with no failure |
| `ParseProperties.FieldsStopAtRelations` | backend/DeepWiki.Api/Services/GitHubIngestService.cs:223-235 | a malformed relation stops extraction after the parsed relations, before any diagram |
| `ParseProperties.ParseWellFormed` | backend/DeepWiki.Api/Services/GitHubIngestService.cs:177-280 | well-formed JSON is parsed in full: the overview section first, then the sections, relations and diagrams in order |
| `ParseProperties.ParseStopsAtRelations` | backend/DeepWiki.Api/Services/GitHubIngestService.cs:252-265 | a bad relation keeps the earlier sections and relations (no rollback). It replaces the overview by the raw text, appends the raw-text section and drops the diagrams |
| `ParseProperties.NoCandidateGivesRawSection` | backend/DeepWiki.Api/Services/GitHubIngestService.cs:267-277 | with no `{`…`}` in the answer, the result is an empty overview plus one raw-text section |
| `ParseProperties.UndeserializableCandidate` | backend/DeepWiki.Api/Services/GitHubIngestService.cs:252-265 | when deserialisation throws, the overview is the raw text and the only section is the raw-text section |
| `ParseProperties.WellFormedSections` | backend/DeepWiki.Api/Services/GitHubIngestService.cs:189-220 | for well-formed input, section 0 is the overview and section k+1 is the k-th JSON section |
| `ParseProperties.WellFormedRelationsAndDiagrams` | backend/DeepWiki.Api/Services/GitHubIngestService.cs:222-249 | for well-formed input, relations and diagrams correspond one to one, in order |
| `ParseProperties.BadRelationKeepsSections` | backend/DeepWiki.Api/Services/GitHubIngestService.cs:252-265 | a bad relation leaves overview section, JSON sections, then the raw-text section, with the raw text as overview |
| `ParseProperties.BadRelationKeepsEarlierRelations` | backend/DeepWiki.Api/Services/GitHubIngestService.cs:225-234 | a bad relation keeps exactly the relations before it and no diagrams |
| `ParseProperties.FieldsStopAtSections` | backend/DeepWiki.Api/Services/GitHubIngestService.cs:204-220 | a malformed section stops extraction after the overview section and the parsed sections, before any relation |
| `ParseProperties.FieldsStopAtDiagrams` | backend/DeepWiki.Api/Services/GitHubIngestService.cs:238-249 | a malformed diagram stops extraction after all sections and relations and the parsed diagrams |
| `ParseProperties.BadSectionKeepsEarlierSections` | backend/DeepWiki.Api/Services/GitHubIngestService.cs:252-265 | a bad section keeps the overview section and exactly the sections before it (no rollback), then the raw-text section, with the raw text as overview and no relations or diagrams |
| `ParseProperties.SectionsNotArrayKeepsOverview` | backend/DeepWiki.Api/Services/GitHubIngestService.cs:204-206 | a `sections` value that is not an array throws at enumeration: the result is the overview section then the raw-text section, with the raw text as overview |
| `ParseProperties.BadDiagramKeepsEarlierDiagrams` | backend/DeepWiki.Api/Services/GitHubIngestService.cs:252-265 | a bad diagram keeps every section, every relation and exactly the diagrams before it, then the raw-text section, with the raw text as overview |
| `ParseProperties.NoOverviewNoSections` | backend/DeepWiki.Api/Services/GitHubIngestService.cs:267-277 | JSON without overview and with empty arrays still yields exactly the raw-text section |
| `ParseProperties.SectionDefaults` | backend/DeepWiki.Api/Services/GitHubIngestService.cs:15-23 | a missing or null summary and type, a missing level and missing files take the defaults: empty summary, level 2, type "content", no files |
| `ParseProperties.RelationDefaults` | backend/DeepWiki.Api/Services/GitHubIngestService.cs:25-31 | missing or null relation type is "references"; missing description is null |
| `ParseProperties.DiagramDefaults` | backend/DeepWiki.Api/Services/GitHubIngestService.cs:33-38 | missing or null diagram type is "mermaid" |
| `ParseProperties.RequiredFieldsThrow` | backend/DeepWiki.Api/Services/GitHubIngestService.cs:210-246 | a non-object element, a missing title/content/from/to, a non-integer level (null included) or a non-array `files` (null included) makes the element throw |
| `ContentSelection.TrimSeparators` | backend/DeepWiki.Api/Services/GitHubIngestService.cs:84 | `TrimStart('/')`: the result is a suffix, does not start with `/`, and only `/` was removed |
| `ContentSelection.ListFiles` | backend/DeepWiki.Api/Services/GitHubIngestService.cs:82-85 | never lists more files than the tree holds |
| `ContentSelection.ListFilesMembers` | backend/DeepWiki.Api/Services/GitHubIngestService.cs:82-85 | a file is listed iff it is outside `<workDir>/.git`. Its path is taken relative to the working directory |
| `ContentSelection.ListFilesSound` | backend/DeepWiki.Api/Services/GitHubIngestService.cs:82-85 | every listed file is a tree file outside `.git`, under its relative path |
| `ContentSelection.ListFilesComplete` | backend/DeepWiki.Api/Services/GitHubIngestService.cs:82-85 | every tree file outside `.git` is listed |
| `ContentSelection.ListFilesAppend` | backend/DeepWiki.Api/Services/GitHubIngestService.cs:82-85 | `Where`/`Select` keep the enumeration order: listing a concatenation concatenates the listings |
| `ContentSelection.ListFilesSingle` | backend/DeepWiki.Api/Services/GitHubIngestService.cs:83-84 | one file is listed under its relative path unless its full path contains `<workDir>/.git` |
| `ContentSelection.GitPrefixedPathsDropped` | backend/DeepWiki.Api/Services/GitHubIngestService.cs:83 | any relative path starting with `.git` (also `.github/…`, `.gitignore`) is excluded |
| `ContentSelection.CodeFiles` | backend/DeepWiki.Api/Services/GitHubIngestService.cs:87-89 | keeps exactly the listed files with a code extension, compared case-insensitively |
| `ContentSelection.IdentityFiles` | backend/DeepWiki.Api/Services/GitHubIngestService.cs:120-129 | keeps exactly the manifests, plus a root `README.md` or `Dockerfile` in any case |
| `ContentSelection.CodeFilesAppend` | backend/DeepWiki.Api/Services/GitHubIngestService.cs:87-89 | the code filter keeps the listing order: filtering a concatenation concatenates the results |
| `ContentSelection.CodeFilesSingle` | backend/DeepWiki.Api/Services/GitHubIngestService.cs:88 | one file is kept iff it has a code extension |
| `ContentSelection.IdentityFilesAppend` | backend/DeepWiki.Api/Services/GitHubIngestService.cs:120-129 | the identity filter keeps the listing order in the same way |
| `ContentSelection.IdentityFilesSingle` | backend/DeepWiki.Api/Services/GitHubIngestService.cs:121-128 | one file is kept iff it is an identity file |
| `ContentSelection.Truncate` | backend/DeepWiki.Api/Services/GitHubIngestService.cs:111 | text of at most 2000 UTF-16 code units is kept as is; the result never exceeds 2016 code units |
| `ContentSelection.TruncateKeepsPrefix` | backend/DeepWiki.Api/Services/GitHubIngestService.cs:111 | longer text becomes the longest prefix of whole characters within 2000 code units, followed by the truncation marker |
| `ContentSelection.AcceptBound` | backend/DeepWiki.Api/Services/GitHubIngestService.cs:111-113 | an accepted file adds at most 2016 code units to the count |
| `ContentSelection.CodePassStep` | backend/DeepWiki.Api/Services/GitHubIngestService.cs:96-117 | one iteration under the budget: an accepted file is stored and its length counted, any other file is skipped |
| `ContentSelection.Paths` | backend/DeepWiki.Api/Services/GitHubIngestService.cs:161 | the dictionary's keys in insertion order |
| `ContentSelection.PathIndex` | backend/DeepWiki.Api/Services/GitHubIngestService.cs:112 | absent iff the key is missing; otherwise the position of its first entry |
| `ContentSelection.Lookup` | backend/DeepWiki.Api/Services/GitHubIngestService.cs:112 | absent iff the key is missing; otherwise the value stored for it |
| `ContentSelection.Upsert` | backend/DeepWiki.Api/Services/GitHubIngestService.cs:112 | an existing key keeps its place; a new key is appended at the end |
| `ContentSelection.UpsertLookup` | backend/DeepWiki.Api/Services/GitHubIngestService.cs:137 | after `d[k] = v`, looking up `k` gives `v` |
| `ContentSelection.LookupFirst` | backend/DeepWiki.Api/Services/GitHubIngestService.cs:112 | looking up a key gives the value of its first entry |
| `ContentSelection.UpsertOthers` | backend/DeepWiki.Api/Services/GitHubIngestService.cs:137 | `d[k] = v` leaves every other key's value unchanged |
| `ContentSelection.UpsertEntries` | backend/DeepWiki.Api/Services/GitHubIngestService.cs:112 | an upsert adds only the new entry and loses no key |
| `ContentSelection.SelectContent` | backend/DeepWiki.Api/Services/GitHubIngestService.cs:82-140 | the listing and the two read loops compute `Selection` |
| `ContentSelection.ReadCodeFiles` | backend/DeepWiki.Api/Services/GitHubIngestService.cs:92-117 | the code loop, with its budget `break`, computes the fold `CodePass` |
| `ContentSelection.ReadCodeFile` | backend/DeepWiki.Api/Services/GitHubIngestService.cs:100-116 | one file is accepted iff it is readable, 200 < length < 30000 in UTF-16 code units and not a noise path; its content is truncated |
| `ContentSelection.ReadIdentityFiles` | backend/DeepWiki.Api/Services/GitHubIngestService.cs:131-140 | the identity loop computes the fold `IdentityPass` |
| `ContentSelection.CodePassGrows` | backend/DeepWiki.Api/Services/GitHubIngestService.cs:113 | the code-unit count never decreases |
| `ContentSelection.CodePassBudget` | backend/DeepWiki.Api/Services/GitHubIngestService.cs:98 | the count stops at most one truncated file past 60000, that is at most 62016 |
| `ContentSelection.CodePassKeepsPaths` | backend/DeepWiki.Api/Services/GitHubIngestService.cs:112 | a key once selected stays selected |
| `ContentSelection.CodePassCompleteUnderBudget` | backend/DeepWiki.Api/Services/GitHubIngestService.cs:96-117 | if the budget is never exceeded, every acceptable code file is selected |
| `ContentSelection.CodePassSound` | backend/DeepWiki.Api/Services/GitHubIngestService.cs:96-117 | each selected entry is the accepted, truncated content of a code file |
| `ContentSelection.IdentityPassSound` | backend/DeepWiki.Api/Services/GitHubIngestService.cs:131-140 | each identity entry is the untruncated text of an identity file shorter than 5000 code units |
| `ContentSelection.IdentityPassOtherPaths` | backend/DeepWiki.Api/Services/GitHubIngestService.cs:131-140 | the identity pass leaves every other path untouched |
| `ContentSelection.IdentityPassIncludes` | backend/DeepWiki.Api/Services/GitHubIngestService.cs:136-137 | a short readable identity file ends up with its own text, overwriting any code entry |
| `ContentSelection.SelectionSound` | backend/DeepWiki.Api/Services/GitHubIngestService.cs:82-140 | the budget bound holds, and every entry comes from a listed code file or a listed identity file |
| `ContentSelection.SizeWindowScenario` | backend/DeepWiki.Api/Services/GitHubIngestService.cs:105-111 | 150 and 31000 code units are rejected, 25000 characters without surrogate pairs are truncated to 2000 plus the marker, and unreadable files are dropped |
| `ContentSelection.SurrogatePairCountsTwice` | backend/DeepWiki.Api/Services/GitHubIngestService.cs:105 | 199 ASCII characters and one emoji are 201 code units, so the file is kept although it has only 200 characters |
| `ContentSelection.NoisyManifestSelected` | backend/DeepWiki.Api/Services/GitHubIngestService.cs:105-137 | a 100-unit `package.json` under `node_modules` is refused as code but stored by the identity pass, which has neither the noise filter nor the 200-unit minimum |
| `IngestService.Shown` | backend/DeepWiki.Api/Services/GitHubIngestService.cs:151 | `Take(30)`: the first min(n, 30) entries |
| `IngestService.RenderAll` | backend/DeepWiki.Api/Services/GitHubIngestService.cs:151-154 | one fenced block per entry, in order |
| `IngestService.AssembleContext` | backend/DeepWiki.Api/Services/GitHubIngestService.cs:147-154 | the `StringBuilder` loop builds `BuildContext` |
| `IngestService.ContextListsShownEntries` | backend/DeepWiki.Api/Services/GitHubIngestService.cs:151-154 | every one of the first thirty entries appears fenced in the context |
| `IngestService.ContextIgnoresLaterEntries` | backend/DeepWiki.Api/Services/GitHubIngestService.cs:151 | entries past the thirtieth do not change the context |
| `IngestService.ContextStartsWithRepository` | backend/DeepWiki.Api/Services/GitHubIngestService.cs:148 | the context opens with `REPOSITORY: owner/repo` |
| `IngestService.Ingest` | backend/DeepWiki.Api/Services/GitHubIngestService.cs:52-175 | clone failure gives `Git clone failed: <stderr>`. A model failure propagates. Otherwise the result is `Parse` of the answer and has at least one section |
| `IngestService.ProcessRepository` | backend/DeepWiki.Api/Services/GitHubIngestService.cs:52-175 | the pipeline method computes `Ingest` |
| `DocumentApi.SectionTexts` | backend/DeepWiki.Api/Program.cs:262-264 | each section renders as heading, title, blank line, content |
| `DocumentApi.RowTexts` | backend/DeepWiki.Api/Program.cs:158-160 | each stored row renders the same way |
| `DocumentApi.HeadingMarksLevel` | backend/DeepWiki.Api/Program.cs:92 | a rendered section starts with `# ` iff its level is 1; every other level gets `## ` |
| `DocumentApi.DocumentListsSections` | backend/DeepWiki.Api/Program.cs:262-264 | every section's rendering appears in the joined document |
| `DocumentApi.MainDocument` | backend/DeepWiki.Api/Program.cs:259-265 | without sections the document is the overview; otherwise it is the joined rendering |
| `DocumentApi.ParsedDocumentIsRendered` | backend/DeepWiki.Api/Program.cs:259-265 | since a parse always has a section, the overview branch is never taken after a parse |
| `DocumentApi.RenderDiagrams` | backend/DeepWiki.Api/Program.cs:273 | one block per diagram with title and fenced source |
| `DocumentApi.DiagramAppendixContents` | backend/DeepWiki.Api/Program.cs:268-275 | the appendix is empty iff there are no diagrams. Otherwise it opens with the heading and contains every diagram block |
| `DocumentApi.AppendDiagrams` | backend/DeepWiki.Api/Program.cs:268-275 | the `+=` loop appends exactly the appendix |
| `DocumentApi.BuildOutputDocument` | backend/DeepWiki.Api/Program.cs:258-275 | the returned document is the main document followed by the appendix |
| `DocumentApi.LegacySlug` | backend/DeepWiki.Api/Program.cs:234 | the stored slug contains no space |
| `DocumentApi.LegacySlugOnlyDashesSpaces` | backend/DeepWiki.Api/Program.cs:234 | `Replace("[^a-z0-9-]", "")` is literal: for lower-case text without `[`, only spaces change |
| `DocumentApi.SaveSections` | backend/DeepWiki.Api/Program.cs:227-242 | row i is section i with `OrderIndex = i` and its slug |
| `DocumentApi.SavedRows` | backend/DeepWiki.Api/Program.cs:227-242 | the rows stored for a result, one per section, in order |
| `DocumentApi.InsertByOrder` | backend/DeepWiki.Api/Program.cs:155 | insertion adds exactly one row (multiset) |
| `DocumentApi.InsertKeepsSorted` | backend/DeepWiki.Api/Program.cs:155 | insertion keeps rows ordered by `OrderIndex` |
| `DocumentApi.OrderByIndex` | backend/DeepWiki.Api/Program.cs:155 | `OrderBy(s => s.OrderIndex)` is a permutation sorted by position |
| `DocumentApi.SortedPermutationUnique` | backend/DeepWiki.Api/Program.cs:155 | rows with consecutive positions have exactly one sorted arrangement |
| `DocumentApi.SortedHeadIsFirst` | backend/DeepWiki.Api/Program.cs:155 | the first row read back is the first row saved |
| `DocumentApi.ReadBackRestoresOrder` | backend/DeepWiki.Api/Program.cs:153-156 | whatever order the database yields, reading back restores the saved order |
| `DocumentApi.CachedDocumentMatchesFresh` | backend/DeepWiki.Api/Program.cs:153-160 | the cached document equals the fresh one minus the diagram appendix |
| `DocumentApi.FirstNamed` | backend/DeepWiki.Api/Program.cs:50 | absent iff no record has the name; otherwise the first record that does |
| `DocumentApi.FindByFullName` | backend/DeepWiki.Api/Program.cs:46-50 | `FirstOrDefault` by full name: absent iff no record matches |
| `DocumentApi.IndexedIffCompletedRecord` | backend/DeepWiki.Api/Program.cs:46-61 | with unique names, indexed iff a completed record named `owner/repo` exists |
| `DocumentApi.CompleteIngest` | backend/DeepWiki.Api/Program.cs:227-285 | the section and diagram rows, no relation rows, and a response with the output document and the three counts |
| `AppText.Slugify` | frontend/src/App.tsx:67 | the slug uses only `[a-z0-9-]`, has no `--` and no leading or trailing `-` |
| `AppText.SlugifyNoDoubleDash` | frontend/src/App.tsx:67 | the slug never contains `--` |
| `AppText.SlugifyIdempotent` | frontend/src/App.tsx:67 | slugifying a slug changes nothing |
| `AppText.SlugifyKeepsAlphanumerics` | frontend/src/App.tsx:67 | the slug keeps every letter and digit of the lower-cased text, in order |
| `AppText.CollapseShape` | frontend/src/App.tsx:67 | `replace(/[^a-z0-9]+/g, '-')` leaves only slug characters and single dashes |
| `AppText.CollapseKeepsAlphanumerics` | frontend/src/App.tsx:67 | collapsing runs keeps every letter and digit |
| `AppText.TrimShape` | frontend/src/App.tsx:67 | removing a leading and a trailing dash leaves no dash at either end and keeps the slug alphabet |
| `AppText.HeadingOf` | frontend/src/App.tsx:270-278 | a heading has level 1 or 2 and a non-empty title without line terminators |
| `AppText.HeadingsBefore` | frontend/src/App.tsx:268-273 | lists only heading lines before n, in increasing order |
| `AppText.ScanLine` | frontend/src/App.tsx:269-283 | one loop iteration keeps the scan invariant |
| `AppText.ParseSectionsLoop` | frontend/src/App.tsx:262-290 | the loop returns `ParseSections`: one section per heading line, closed at the next heading |
| `AppText.HeadingsExact` | frontend/src/App.tsx:270-273 | a line opens a section iff it is a `# ` or `## ` heading |
| `AppText.HeadingsIncreasing` | frontend/src/App.tsx:268 | sections come in line order |
| `AppText.SectionFromHeading` | frontend/src/App.tsx:279 | section k has its heading's level and title, id `section-<line>`, the title's slug, empty summary and type "content" |
| `AppText.SectionContent` | frontend/src/App.tsx:274-287 | a section's content is the lines up to the next heading or the end, joined by `\n`; none of them is a heading |
| `AppText.PreambleDropped` | frontend/src/App.tsx:281 | no sections iff no heading; lines before the first heading belong to no section |
| `AppText.SectionIdsDistinct` | frontend/src/App.tsx:279 | section ids are pairwise distinct |
| `Mindmap.GenerateMindmap` | frontend/src/App.tsx:108-115 | the `forEach` builds `MindmapOf` |
| `Mindmap.MindmapEmpty` | frontend/src/App.tsx:109 | the graph is empty iff there are no relations |
| `Mindmap.MindmapLines` | frontend/src/App.tsx:110-114 | for single-line fields the graph's lines are `graph TD`, then one edge per relation in order, then an empty tail |
| `Mindmap.MindmapListsRelations` | frontend/src/App.tsx:112 | every relation's edge line appears in the graph |
| `IngestView.OrEmpty` | frontend/src/App.tsx:247 | `data.relations \|\| []` keeps an array and turns only the number zero into the empty array |
| `IngestView.MindmapShown` | frontend/src/App.tsx:108-115 | the mind map renders, as `MindmapOf`, iff the state holds an array; a number makes `relations.forEach` throw |
| `IngestView.FreshIngestBreaksMindmap` | backend/DeepWiki.Api/Program.cs:277-286 | a fresh ingest with at least one relation sends the relation count, and the mind map then fails to render |
| `IngestView.RelationsSent` | frontend/src/App.tsx:247 | corrected response field: the relation list itself, one front-end relation per parsed relation, in order |
| `IngestView.SentRelationsAreDrawn` | frontend/src/App.tsx:108-115 | with the list sent, the mind map renders and contains the edge line of every parsed relation |
| `AppState.NextStep` | frontend/src/App.tsx:232 | the step advances by one below the last step and stays there once reached |
| `AppState.StepAfterSaturates` | frontend/src/App.tsx:232 | after t ticks the step is min(t, 3) |
| `AppState.StepAlwaysShown` | frontend/src/App.tsx:30-35 | the step always indexes `INGEST_STEPS` |
| `AppState.StepMonotone` | frontend/src/App.tsx:232 | the step never goes back |
| `AppState.FilterRepos` | frontend/src/App.tsx:181 | filtering never adds repositories |
| `AppState.FilterReposExact` | frontend/src/App.tsx:184 | a repository is offered iff it is listed and its name contains the query, ignoring case |
| `AppState.FilterReposAppend` | frontend/src/App.tsx:184 | filtering keeps the list's order |
| `AppState.FilterCaseInsensitive` | frontend/src/App.tsx:184 | queries differing only in letter case give the same list |
| `AppState.EmptyQueryKeepsAll` | frontend/src/App.tsx:101-106 | the empty substring matches every repository |
| `AppState.Search` | frontend/src/App.tsx:166-187 | a blank query changes nothing. Otherwise the search ends not searching, and its results depend on the request: a thrown request gives the fallback, a non-OK response gives none, OK results are shown, and an empty OK gives the fallback |
| `AppState.SearchShowsMatches` | frontend/src/App.tsx:166-187 | a non-blank search shows only back-end results or matching popular repositories |

## Left out

- The `git clone` subprocess and the temporary directory are not modelled, and neither is its deletion in `finally`. The clone outcome is a parameter: a file tree, or the standard error text.
- Reading a file is not modelled. A failed read (`catch { }`) is a file whose text is absent.
- `JsonSerializer.Deserialize` is a parameter that returns no element where it throws. A JSON object is a map, so duplicate keys are the deserialiser's concern.
- `AiClientService.GenerateStructuredDocsAsync` is not part of this model. It is the completion function passed to `Ingest`, and its failure is the exception message.
- `ParseAiResponse`'s `allFiles` argument is unused in the source; the model accepts it and ignores it too. Logging is not modelled.
- `ChatHub`, SignalR, Entity Framework, the database and HTTP are not modelled. Tables are sequences in the order the database yields them, and `SaveChangesAsync` is not modelled.
- The `/api/repo/data` handler's relation and diagram queries (Program.cs lines 83-89) are not modelled; its document rendering is (`RowTexts`).
- `FindByFullName`: `FirstOrDefault` without `OrderBy` takes the first record the database yields. With duplicate names that choice is the database's, so `IndexedIffCompletedRecord` assumes unique full names.
- `CachedDocumentMatchesFresh`: the cached document omits the diagram appendix (Program.cs lines 158-160 render sections only). It equals the fresh document only without diagrams.
- Lower-casing (`toLowerCase`, `ToLower`, `OrdinalIgnoreCase`) is ASCII-only. Non-ASCII case mappings are not modelled.
- The culture-sensitive `string.EndsWith(string)` of the identity filter is modelled as ordinal comparison.
- The directory separator is `/`.
- `AssembleContext`, `ContextHeader`, `RenderEntry` and `BuildContext` end each `AppendLine` with "\n" (`NewLine`): `Environment.NewLine` on a POSIX host. On Windows the service would end these lines with "\r\n"; that host is not modelled.
- `Truncate`: when the 2000th code unit is the first half of a surrogate pair, .NET's `Substring(0, 2000)` keeps that lone half (2000 units before the marker). The model drops the whole character (1999 units), because a Dafny string holds whole characters only. Everywhere else the cut is the same.
- `ReadCodeFile`, `ReadCodeFiles`, `SelectContent`: they use `Truncate`, so they share its lone-surrogate limitation. Their code-unit counts are one lower than .NET's in that case only.
- Identity files skip the code filters. The length window and the path filters of the code pass (GitHubIngestService.cs lines 105-109) are not applied by the identity loop (lines 131-140), whose only test is a length under 5000 (line 136). A short `node_modules/x/package.json` is therefore stored (`NoisyManifestSelected`).
- The JSON number model only records whether a number has an integral 32-bit value; floating point is not modelled.
- The React rendering, Mermaid, Markdown display, icons of `INGEST_STEPS` and the `fetch` calls are not modelled.
- The timer is a tick count, and `clearInterval` is not modelled.
- The mapping of search response fields (`fullName || full_name`, `stars || stargazers_count || 0`, …) is not modelled: `SearchOutcome.Ok` carries results already mapped.
- `parseSections` works on the lines of `markdown.split('\n')`. The regular expressions `/^# (.+)$/` and `/^## (.+)$/` are modelled without the `m` flag: `$` matches only at the end of the line, and the title may not contain `\r`, U+2028 or U+2029.
- No rollback on a parse failure. The catch block (GitHubIngestService.cs lines 252-265) replaces the overview with the raw text and appends the raw-text section, and keeps every section, relation and diagram already added. A failing section keeps the overview section and the earlier sections (`BadSectionKeepsEarlierSections`). A non-array `sections` keeps the overview section (`SectionsNotArrayKeepsOverview`). A failing relation keeps every section and the earlier relations (`BadRelationKeepsSections`, `BadRelationKeepsEarlierRelations`). A failing diagram keeps every section and relation and the earlier diagrams (`BadDiagramKeepsEarlierDiagrams`).
- Identity files are matched in two ways (GitHubIngestService.cs lines 120-129). Manifests match by suffix anywhere in the tree, `mypackage.json` included. `README.md` and `Dockerfile` match only as a whole relative path, ignoring case, so only at the root (`IdentityFiles`).
- The Program.cs slug removes the literal text `[^a-z0-9-]` rather than the character class, since `string.Replace` takes no pattern. The model follows the code (`LegacySlugOnlyDashesSpaces`).
- `GenerateMindmap` and the `Mindmap` lemmas take the declared `Relation[]`. After a fresh ingest the front end's relation state holds a number instead (see Findings), and that case is modelled only in `IngestView`. The same mismatch for `diagrams` (Program.cs line 285, App.tsx lines 130 and 246) is not modelled, because the diagram rendering effect is not.

## Findings

| source | as written | input that shows it | evidently intended | confidence | as-written member | corrected member |
|---|---|---|---|---|---|---|
| frontend/src/App.tsx:246-247 | the fresh ingest response (Program.cs lines 283-285) sends `relations = result.Relations.Count`, a number, and the front end stores `data.relations \|\| []` as its relation list; `relations.length === 0` is then false and `relations.forEach` throws while rendering | an ingest whose parsed answer has one relation: the response carries `relations: 1` | the response carries the relation list, as the front end's `Relation[]` state and its `Array.isArray` test on `sections` (App.tsx line 245) expect, so every relation is drawn | not executed | `IngestView.FreshIngestBreaksMindmap` | `IngestView.SentRelationsAreDrawn` |
