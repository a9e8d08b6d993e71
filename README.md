# Eight IntelliJ fragments, modelled in Dafny

This project models eight small pieces of the IntelliJ platform and its plugins, one Dafny module each,
and proves what each piece promises.

- **InlineUtils**: the Kotlin debugger reads a local variable's inline depth from the run of
  inline-function suffixes at the end of its name. It also strips that run, and picks a frame's depth
  from its visible locals.
- **PullRequestSearch**: the GitHub plugin turns the pull-request list filter (six optional fields)
  into an ordered list of search terms.
- **JpsPaths**: the project-model updater renders JPS paths (`$PROJECT_DIR$/…`, `$MAVEN_REPOSITORY$/…`)
  and `file://` / `jar://` URLs.
- **IdeStarter**: the IDE starter's `IdeInfo` factory and its installer naming tables (file prefix,
  product name, file extension by OS and architecture).
- **SvnLocation**: the Subversion repository location and its guarded local-path lookup.
- **SvnHistory**: the Subversion committed change list. This covers:
  - sorting log-entry paths into added, deleted and changed;
  - expanding deleted and renamed directories;
  - building the change list;
  - `equals`/`hashCode`;
  - writing and reading the stream format.
- **FileTestFixture**: the Gradle test fixture's file snapshots, rollback, error log and persisted
  state, and the repair and configure steps that run at set-up.
- **LibraryDependencies**: the Kotlin plugin's cache of the libraries and SDKs a library depends on.
  It covers the library usage index, the per-module walk of order entries, the built-ins filter, and
  the memoised lookup.
- **RefreshWorker**: the VFS refresh worker's decisions. These are the root scan, the queue loop,
  cancellation, name diffing of a directory, and the type, name and attribute checks of a child.
- **SettingsSync**: the settings-sync client's bookkeeping of the snapshot version on the cloud config
  server, and the server-state decision built on it.

`Wrappers` holds the shared `Option`/`Result` types and the `StartsWith`/`EndsWith` string predicates.

Parts the sources depend on but do not show become parameters of the model. These are:
- the compiler's inline naming constants;
- the Subversion repository's `checkPath`/list answers and the directory detector;
- the file system's listing and attributes;
- library platform checks;
- the server calls.

Stateful objects (`SvnChangeList`, the fixture, the dependency cache, the refresh worker, the
communicator) are classes whose methods update their fields. Each such method is proved against
specification functions, and lemmas prove properties of those functions.

## Model

| member | source | states |
|---|---|---|
| InlineUtils.SuffixDepth | plugins/kotlin/jvm-debugger/util/src/org/jetbrains/kotlin/idea/debugger/InlineUtils.kt:37-52 | the depth is 0 exactly when the name does not end with the suffix, and depth × suffix length never exceeds the name length |
| InlineUtils.SuffixDecomposition | plugins/kotlin/jvm-debugger/util/src/org/jetbrains/kotlin/idea/debugger/InlineUtils.kt:37-52 | every name is its stem followed by exactly depth copies of the suffix, and the stem does not end with the suffix |
| InlineUtils.SuffixDepthUnique | plugins/kotlin/jvm-debugger/util/src/org/jetbrains/kotlin/idea/debugger/InlineUtils.kt:37-52 | any decomposition `rest + suffix^n` with `rest` not ending in the suffix has `n` equal to the depth |
| InlineUtils.GetInlineDepth | plugins/kotlin/jvm-debugger/util/src/org/jetbrains/kotlin/idea/debugger/InlineUtils.kt:37-52 | the backwards loop over a non-empty suffix returns exactly the number of back-to-back suffixes ending the name |
| InlineUtils.DropInlineSuffix | plugins/kotlin/jvm-debugger/util/src/org/jetbrains/kotlin/idea/debugger/InlineUtils.kt:54-61 | unchanged at depth 0; otherwise a prefix of the name shorter by depth × suffix length, the name is the result plus depth suffixes, and the result has depth 0 |
| InlineUtils.DropInlineSuffixIdempotent | plugins/kotlin/jvm-debugger/util/src/org/jetbrains/kotlin/idea/debugger/InlineUtils.kt:54-61 | stripping twice gives the same as stripping once |
| InlineUtils.InsertBySlot | plugins/kotlin/jvm-debugger/util/src/org/jetbrains/kotlin/idea/debugger/InlineUtils.kt:24 | insertion adds exactly the new variable (length and multiset) |
| InlineUtils.InsertBySlotKeepsOrder | plugins/kotlin/jvm-debugger/util/src/org/jetbrains/kotlin/idea/debugger/InlineUtils.kt:24 | inserting into a slot-descending list keeps it slot-descending |
| InlineUtils.SortBySlotDescending | plugins/kotlin/jvm-debugger/util/src/org/jetbrains/kotlin/idea/debugger/InlineUtils.kt:24 | the sort is a permutation of the variables and is ordered by slot, highest first |
| InlineUtils.CountWithPrefix | plugins/kotlin/jvm-debugger/util/src/org/jetbrains/kotlin/idea/debugger/InlineUtils.kt:22 | the marker count never exceeds the number of variables |
| InlineUtils.FirstDeciderUnique | plugins/kotlin/jvm-debugger/util/src/org/jetbrains/kotlin/idea/debugger/InlineUtils.kt:24-32 | a list has at most one first deciding variable, so the list depth is well defined |
| InlineUtils.GetInlineDepthOfVariables | plugins/kotlin/jvm-debugger/util/src/org/jetbrains/kotlin/idea/debugger/InlineUtils.kt:21-35 | the first variable in descending slot order that has suffixes or is an argument marker fixes the depth (its suffix depth, or 0); with no such variable the depth is the inlined-function marker count, at most the number of variables |
| PullRequestSearch.FieldTermRank | plugins/github/src/org/jetbrains/plugins/github/pullrequest/ui/toolwindow/GHPRListSearchState.kt:22-58 | every term identifies the filter it came from |
| PullRequestSearch.TermsUpToOrdered | plugins/github/src/org/jetbrains/plugins/github/pullrequest/ui/toolwindow/GHPRListSearchState.kt:22-58 | terms are strictly ordered free text, state, assignee, review, author, label; each is its filter's term, and every set filter has one |
| PullRequestSearch.TermsCount | plugins/github/src/org/jetbrains/plugins/github/pullrequest/ui/toolwindow/GHPRListSearchState.kt:22-58 | the number of terms equals the number of set filters |
| PullRequestSearch.TermsEmptyIff | plugins/github/src/org/jetbrains/plugins/github/pullrequest/ui/toolwindow/GHPRListSearchState.kt:17-60 | there are no terms exactly when `isEmpty` holds |
| PullRequestSearch.TermsFacts | plugins/github/src/org/jetbrains/plugins/github/pullrequest/ui/toolwindow/GHPRListSearchState.kt:17-61 | the full term list: empty iff `isEmpty`, one term per set filter, in filter order, each its filter's term |
| PullRequestSearch.BuildTerms | plugins/github/src/org/jetbrains/plugins/github/pullrequest/ui/toolwindow/GHPRListSearchState.kt:20-58 | the six conditional appends build exactly the reference term list |
| PullRequestSearch.ToQuery | plugins/github/src/org/jetbrains/plugins/github/pullrequest/ui/toolwindow/GHPRListSearchState.kt:19-62 | null exactly when `isEmpty`; otherwise a query of one term per set filter, in filter order |
| PullRequestSearch.ReviewTermsDistinct | plugins/github/src/org/jetbrains/plugins/github/pullrequest/ui/toolwindow/GHPRListSearchState.kt:39-50 | the seven review filters give pairwise different terms; "not reviewed by me" is the negation of "reviewed by me" and the only negated term |
| PullRequestSearch.StateTermsDistinct | plugins/github/src/org/jetbrains/plugins/github/pullrequest/ui/toolwindow/GHPRListSearchState.kt:26-33 | the three states give pairwise different `is:` terms |
| PullRequestSearch.DefaultAndEmptyQueries | plugins/github/src/org/jetbrains/plugins/github/pullrequest/ui/toolwindow/GHPRListSearchState.kt:64-67 | `DEFAULT` yields the single term `is:open`; `EMPTY` is empty and yields no terms |
| JpsPaths.IndexOfSlash | plugins/kotlin/util/project-model-updater/src/org/jetbrains/tools/model/updater/impl/JpsPath.kt:14 | the position of the first `/`, or the length when there is none |
| JpsPaths.ProjectDirRelativePath | plugins/kotlin/util/project-model-updater/src/org/jetbrains/tools/model/updater/impl/JpsPath.kt:4-6 | the path is kept when community or starting with `..`, else prefixed with `community/`; the given path can be read back |
| JpsPaths.RootHasNoSlash | plugins/kotlin/util/project-model-updater/src/org/jetbrains/tools/model/updater/impl/JpsPath.kt:3-10 | neither root macro contains a `/` |
| JpsPaths.RenderRoundTrip | plugins/kotlin/util/project-model-updater/src/org/jetbrains/tools/model/updater/impl/JpsPath.kt:14 | splitting the rendered `root/path` at its first `/` gives back the root and the path |
| JpsPaths.ProjectDirRenderInjective | plugins/kotlin/util/project-model-updater/src/org/jetbrains/tools/model/updater/impl/JpsPath.kt:4-14 | two project-dir paths with the same flag render equally only if the given paths are equal |
| JpsPaths.FileUrlShape | plugins/kotlin/util/project-model-updater/src/org/jetbrains/tools/model/updater/impl/JpsPath.kt:18-21 | a file URL is `file://` followed by the rendered path |
| JpsPaths.JarUrlShape | plugins/kotlin/util/project-model-updater/src/org/jetbrains/tools/model/updater/impl/JpsPath.kt:23-26 | a jar URL is `jar://`, the rendered path, `!/` and the inner path; with the default inner path it ends with `!/` |
| JpsPaths.FileAndJarUrlsDiffer | plugins/kotlin/util/project-model-updater/src/org/jetbrains/tools/model/updater/impl/JpsPath.kt:17-26 | a file URL never equals a jar URL |
| JpsPaths.FileUrlInjective | plugins/kotlin/util/project-model-updater/src/org/jetbrains/tools/model/updater/impl/JpsPath.kt:18-21 | equal file URLs come from equal rendered paths |
| IdeStarter.New | tools/intellij.ide.starter/src/com/intellij/ide/starter/models/IdeInfo.kt:14-28 | fields come from the arguments; `tag` is absent; the build type is the CI build type when not null or blank, else `""` |
| IdeStarter.InstallerFilePrefix | tools/intellij.ide.starter/src/com/intellij/ide/starter/models/IdeInfo.kt:32-43 | defined exactly for IU, IC, WS, PS, DB, GO, RM and PY; any other code fails with "Unknown product code: …" |
| IdeStarter.InstallerProductName | tools/intellij.ide.starter/src/com/intellij/ide/starter/models/IdeInfo.kt:45-52 | defined for the same codes; outside IU, IC, RM and PY it is the file prefix, failure included |
| IdeStarter.InstallerNamesDistinct | tools/intellij.ide.starter/src/com/intellij/ide/starter/models/IdeInfo.kt:32-52 | different known product codes get different file prefixes and different product names |
| IdeStarter.InstallerFileExt | tools/intellij.ide.starter/src/com/intellij/ide/starter/models/IdeInfo.kt:54-64 | succeeds exactly on Windows, Linux or a Mac with a known architecture; the two failure messages occur exactly in their cases |
| IdeStarter.InstallerFileExtPrecedence | tools/intellij.ide.starter/src/com/intellij/ide/starter/models/IdeInfo.kt:54-64 | Windows takes precedence over Linux, Linux over Mac, and a `.dmg` extension means a Mac |
| SvnLocation.WithRoot | plugins/svn4idea/src/org/jetbrains/idea/svn/history/SvnRepositoryLocation.java:15-18 | the getters return the constructor arguments |
| SvnLocation.WithoutRoot | plugins/svn4idea/src/org/jetbrains/idea/svn/history/SvnRepositoryLocation.java:20-22 | the URL getter returns the argument and the root is absent |
| SvnLocation.ToString | plugins/svn4idea/src/org/jetbrains/idea/svn/history/SvnRepositoryLocation.java:24-26 | the result is the location's URL |
| SvnLocation.ToPresentableString | plugins/svn4idea/src/org/jetbrains/idea/svn/history/SvnRepositoryLocation.java:28-30 | the result is the location's URL, the same text as `toString` |
| SvnLocation.GetRootFile | plugins/svn4idea/src/org/jetbrains/idea/svn/history/SvnRepositoryLocation.java:32-34 | the working-copy root the location was built with, or none for the one-argument constructor |
| SvnLocation.GetUrl | plugins/svn4idea/src/org/jetbrains/idea/svn/history/SvnRepositoryLocation.java:36-38 | the URL the location was built with |
| SvnLocation.GetLocalPath | plugins/svn4idea/src/org/jetbrains/idea/svn/history/SvnRepositoryLocation.java:40-55 | null without a root file or when the full path does not start with the URL; otherwise the detector's answer |
| SvnLocation.LocatorConsultedOnlyUnderUrl | plugins/svn4idea/src/org/jetbrains/idea/svn/history/SvnRepositoryLocation.java:46-55 | with no root, or a path outside the URL, the result does not depend on the detector |
| SvnLocation.LocalPathFoundUnderUrl | plugins/svn4idea/src/org/jetbrains/idea/svn/history/SvnRepositoryLocation.java:46-55 | a found local path implies a root and a full path that starts with the URL |
| SvnHistory.Children | plugins/svn4idea/src/org/jetbrains/idea/svn/history/SvnChangeList.java:131-160 | children are listed only for a path the repository reports as a directory |
| SvnHistory.ClassifiedSets | plugins/svn4idea/src/org/jetbrains/idea/svn/history/SvnChangeList.java:91-113 | added are the `A` paths, changed the paths of any other type but `D`, deleted the `D` paths plus every child a deleted directory had one revision earlier |
| SvnHistory.ClassifiedDirectories | plugins/svn4idea/src/org/jetbrains/idea/svn/history/SvnChangeList.java:100-109 | the recorded former children are exactly the repository's listings of the deleted directories |
| SvnHistory.ClassifiedCopies | plugins/svn4idea/src/org/jetbrains/idea/svn/history/SvnChangeList.java:94-98 | every recorded copy source points to an added path copied from it |
| SvnHistory.EntrySortedOnce | plugins/svn4idea/src/org/jetbrains/idea/svn/history/SvnChangeList.java:91-113 | each log-entry path is classified under exactly one kind (added, deleted or changed) |
| SvnHistory.Truncate | plugins/svn4idea/src/org/jetbrains/idea/svn/history/SvnChangeList.java:280 | the written message is a prefix of the message within the given limit, and equals it exactly when the message fits |
| SvnHistory.EncodedLength | plugins/svn4idea/src/org/jetbrains/idea/svn/history/SvnChangeList.java:276-289 | the modified UTF-8 length `writeUTF` checks lies between one and six bytes per character |
| SvnHistory.ReadWhatWasWritten | plugins/svn4idea/src/org/jetbrains/idea/svn/history/SvnChangeList.java:275-309 | parsing a token stream in the written layout gives back the stored fields and path sets |
| SvnHistory.HashOf | plugins/svn4idea/src/org/jetbrains/idea/svn/history/SvnChangeList.java:262-269 | the hash is a 32-bit value computed with Java's wrap-around |
| SvnHistory.SvnChangeList.FromLogEntry | plugins/svn4idea/src/org/jetbrains/idea/svn/history/SvnChangeList.java:75-128 | a missing author or message becomes `""`; the path sets are the classification of the log entry, with renamed folders' contents added as directories |
| SvnHistory.SvnChangeList.Restored | plugins/svn4idea/src/org/jetbrains/idea/svn/history/SvnChangeList.java:162-169 | a list read from a stream holds exactly the stored fields and no directory marks |
| SvnHistory.SvnChangeList.GetChildren | plugins/svn4idea/src/org/jetbrains/idea/svn/history/SvnChangeList.java:131-160 | the repository's listing for a directory, null for anything else, with the directory flag recorded |
| SvnHistory.SvnChangeList.ClassifyEntries | plugins/svn4idea/src/org/jetbrains/idea/svn/history/SvnChangeList.java:91-113 | the loop's sets and maps are the reference classification of the entries |
| SvnHistory.SvnChangeList.MarkDeleted | plugins/svn4idea/src/org/jetbrains/idea/svn/history/SvnChangeList.java:100-109 | a deleted path and every former child of it join the deleted set |
| SvnHistory.SvnChangeList.AddRenamedFolderContents | plugins/svn4idea/src/org/jetbrains/idea/svn/history/SvnChangeList.java:115-125 | each former child of a copied-and-deleted directory is added under the new path and marked a directory |
| SvnHistory.SvnChangeList.AddFolderContents | plugins/svn4idea/src/org/jetbrains/idea/svn/history/SvnChangeList.java:118-124 | the children under the target are added and marked directories |
| SvnHistory.SvnChangeList.ChangeFor | plugins/svn4idea/src/org/jetbrains/idea/svn/history/SvnChangeList.java:195-208 | an added change has no before revision, a deleted one no after revision; before is at revision − 1 and after at the revision |
| SvnHistory.SvnChangeList.AppendChanges | plugins/svn4idea/src/org/jetbrains/idea/svn/history/SvnChangeList.java:195-208 | one change of the given kind per path is appended after the existing ones |
| SvnHistory.SvnChangeList.LoadChanges | plugins/svn4idea/src/org/jetbrains/idea/svn/history/SvnChangeList.java:195-208 | the changes are the added, then deleted, then changed paths, one each, so the count is the sum of the three sets |
| SvnHistory.SvnChangeList.GetChanges | plugins/svn4idea/src/org/jetbrains/idea/svn/history/SvnChangeList.java:188-193 | loads once and afterwards returns the stored list unchanged |
| SvnHistory.SvnChangeList.Equals | plugins/svn4idea/src/org/jetbrains/idea/svn/history/SvnChangeList.java:248-260 | equal exactly when revision, author, date and message agree |
| SvnHistory.SvnChangeList.HashCode | plugins/svn4idea/src/org/jetbrains/idea/svn/history/SvnChangeList.java:262-269 | a 32-bit hash of revision, author, date and message |
| SvnHistory.SvnChangeList.WriteToStream | plugins/svn4idea/src/org/jetbrains/idea/svn/history/SvnChangeList.java:275-284 | fails with `UTFDataFormatException` exactly when the root, the author or a path is too long for `writeUTF`; otherwise writes root, revision, author, date, the truncated message, then changed, added and deleted as a count and that many strings |
| SvnHistory.WriteFiles | plugins/svn4idea/src/org/jetbrains/idea/svn/history/SvnChangeList.java:286-291 | fails with `UTFDataFormatException` exactly when a path is too long for `writeUTF`; otherwise a count followed by exactly the paths of the set |
| SvnHistory.ReadFiles | plugins/svn4idea/src/org/jetbrains/idea/svn/history/SvnChangeList.java:304-309 | reads a count and that many strings, as the reference parser does, failing on a malformed stream |
| SvnHistory.ReadFromStream | plugins/svn4idea/src/org/jetbrains/idea/svn/history/SvnChangeList.java:293-302 | succeeds exactly when the stream parses and restores the parsed fields |
| SvnHistory.EqualsIsEquivalence | plugins/svn4idea/src/org/jetbrains/idea/svn/history/SvnChangeList.java:248-269 | `equals` is reflexive, symmetric and transitive, never equal to null, and equal lists have equal hash codes |
| SvnHistory.StreamRoundTrip | plugins/svn4idea/src/org/jetbrains/idea/svn/history/SvnChangeList.java:275-309 | reading what a successful write produced restores root, revision, author, date and the three path sets; the message survives exactly when it fits the truncation limit |
| FileTestFixture.TextIn | plugins/gradle/testSources/org/jetbrains/plugins/gradle/testFramework/fixtures/impl/FileTestFixtureImpl.kt:229-233 | a file's text, or null when it does not exist |
| FileTestFixture.Revert | plugins/gradle/testSources/org/jetbrains/plugins/gradle/testFramework/fixtures/impl/FileTestFixtureImpl.kt:213-223 | the file gets the given text, or is deleted for null; no other file changes |
| FileTestFixture.KeepOnly | plugins/gradle/testSources/org/jetbrains/plugins/gradle/testFramework/fixtures/impl/FileTestFixtureImpl.kt:111-115 | every file but the state file is gone |
| FileTestFixture.InvalidationDecision | plugins/gradle/testSources/org/jetbrains/plugins/gradle/testFramework/fixtures/impl/FileTestFixtureImpl.kt:95-109 | caches are invalidated when the stored state is unreadable, uninitialised, suppressing errors or holding errors, and otherwise kept |
| FileTestFixture.RevertCommutes | plugins/gradle/testSources/org/jetbrains/plugins/gradle/testFramework/fixtures/impl/FileTestFixtureImpl.kt:192-223 | reverting two different files gives the same result in either order |
| FileTestFixture.Fixture.constructor | plugins/gradle/testSources/org/jetbrains/plugins/gradle/testFramework/fixtures/impl/FileTestFixtureImpl.kt:41-45 | a fresh fixture has no snapshots, no errors, errors not suppressed, not initialised |
| FileTestFixture.Fixture.Dump | plugins/gradle/testSources/org/jetbrains/plugins/gradle/testFramework/fixtures/impl/FileTestFixtureImpl.kt:117-121 | the persisted state becomes the fixture's current state |
| FileTestFixture.Fixture.IsModified | plugins/gradle/testSources/org/jetbrains/plugins/gradle/testFramework/fixtures/impl/FileTestFixtureImpl.kt:168-170 | modified exactly when some snapshot is recorded |
| FileTestFixture.Fixture.HasErrors | plugins/gradle/testSources/org/jetbrains/plugins/gradle/testFramework/fixtures/impl/FileTestFixtureImpl.kt:172-174 | true exactly when the error list is non-empty |
| FileTestFixture.Fixture.Snapshot | plugins/gradle/testSources/org/jetbrains/plugins/gradle/testFramework/fixtures/impl/FileTestFixtureImpl.kt:185-190 | the first snapshot of a path records its text or absence and persists; a repeated one changes nothing |
| FileTestFixture.Fixture.RevertFile | plugins/gradle/testSources/org/jetbrains/plugins/gradle/testFramework/fixtures/impl/FileTestFixtureImpl.kt:213-223 | the files become the reference revert of the path |
| FileTestFixture.Fixture.Rollback | plugins/gradle/testSources/org/jetbrains/plugins/gradle/testFramework/fixtures/impl/FileTestFixtureImpl.kt:202-207 | fails without a snapshot; otherwise restores the text or deletes the file, then removes only that snapshot |
| FileTestFixture.Fixture.RollbackAll | plugins/gradle/testSources/org/jetbrains/plugins/gradle/testFramework/fixtures/impl/FileTestFixtureImpl.kt:192-196 | every snapshotted file is restored, other files keep their text, and no snapshot remains; the state file is re-dumped when there was a snapshot and left alone otherwise |
| FileTestFixture.Fixture.RollbackOneOf | plugins/gradle/testSources/org/jetbrains/plugins/gradle/testFramework/fixtures/impl/FileTestFixtureImpl.kt:192-196 | one pass of the loop: rolls back one remaining snapshot, reverting its file and re-dumping the state |
| FileTestFixture.Fixture.RevertAll | plugins/gradle/testSources/org/jetbrains/plugins/gradle/testFramework/fixtures/impl/FileTestFixtureImpl.kt:104-108 | every file of the stored snapshots is restored and other files keep their text |
| FileTestFixture.Fixture.Invalidate | plugins/gradle/testSources/org/jetbrains/plugins/gradle/testFramework/fixtures/impl/FileTestFixtureImpl.kt:111-115 | every child of the root except the state file is deleted |
| FileTestFixture.Fixture.RepairFixtureCaches | plugins/gradle/testSources/org/jetbrains/plugins/gradle/testFramework/fixtures/impl/FileTestFixtureImpl.kt:95-109 | invalidates when the stored state calls for it, otherwise reverts every stored snapshot |
| FileTestFixture.Fixture.AreContentsEqual | plugins/gradle/testSources/org/jetbrains/plugins/gradle/testFramework/fixtures/impl/FileTestFixtureImpl.kt:149-157 | true exactly when every expected file exists with the expected text |
| FileTestFixture.Fixture.CreateFiles | plugins/gradle/testSources/org/jetbrains/plugins/gradle/testFramework/fixtures/impl/FileTestFixtureImpl.kt:159-166 | expected files get their text and other files are untouched |
| FileTestFixture.Fixture.ConfigureFixtureCaches | plugins/gradle/testSources/org/jetbrains/plugins/gradle/testFramework/fixtures/impl/FileTestFixtureImpl.kt:139-147 | files are recreated only when some expected content differs, and afterwards every expected file has its text |
| FileTestFixture.Fixture.SuppressErrors | plugins/gradle/testSources/org/jetbrains/plugins/gradle/testFramework/fixtures/impl/FileTestFixtureImpl.kt:235-238 | sets the flag and persists the state |
| FileTestFixture.Fixture.AddIllegalOperationError | plugins/gradle/testSources/org/jetbrains/plugins/gradle/testFramework/fixtures/impl/FileTestFixtureImpl.kt:240-245 | appends exactly one error and persists when not suppressed; changes nothing when suppressed |
| FileTestFixture.Fixture.IsRelevant | plugins/gradle/testSources/org/jetbrains/plugins/gradle/testFramework/fixtures/impl/FileTestFixtureImpl.kt:251-256 | relevant exactly for a non-directory under the root that is neither the state file nor snapshotted |
| FileTestFixture.Fixture.OnFileChanged | plugins/gradle/testSources/org/jetbrains/plugins/gradle/testFramework/fixtures/impl/FileTestFixtureImpl.kt:258-260 | a relevant change records one illegal-operation error and dumps the state unless errors are suppressed; otherwise errors and the persisted state are unchanged |
| LibraryDependencies.BuildUsageIndex | plugins/kotlin/base/analysis/src/org/jetbrains/kotlin/idea/base/analysis/LibraryDependenciesCache.kt:144-158 | a module is indexed under a library exactly when it has a library entry for it; null libraries are ignored and no key maps to an empty set |
| LibraryDependencies.ModulesUsing | plugins/kotlin/base/analysis/src/org/jetbrains/kotlin/idea/base/analysis/LibraryDependenciesCache.kt:160-168 | only indexed modules that can depend on the library |
| LibraryDependencies.ModulesUsingFromIndex | plugins/kotlin/base/analysis/src/org/jetbrains/kotlin/idea/base/analysis/LibraryDependenciesCache.kt:144-168 | with the built index, a module is used exactly when it has an entry for the library and can depend on it |
| LibraryDependencies.LeastClosedUnique | plugins/kotlin/base/analysis/src/org/jetbrains/kotlin/idea/base/analysis/LibraryDependenciesCache.kt:82-92 | the set of modules reached from given roots is unique |
| LibraryDependencies.LeastClosedUnion | plugins/kotlin/base/analysis/src/org/jetbrains/kotlin/idea/base/analysis/LibraryDependenciesCache.kt:59-92 | the modules reached from a union of roots are the union of those reached from each |
| LibraryDependencies.CandidatesOfModulesUnion | plugins/kotlin/base/analysis/src/org/jetbrains/kotlin/idea/base/analysis/LibraryDependenciesCache.kt:59-71 | candidates of a union of modules are the union of their candidates |
| LibraryDependencies.SdksOfModulesUnion | plugins/kotlin/base/analysis/src/org/jetbrains/kotlin/idea/base/analysis/LibraryDependenciesCache.kt:59-71 | SDKs of a union of modules are the union of their SDKs |
| LibraryDependencies.ProcessEntries | plugins/kotlin/base/analysis/src/org/jetbrains/kotlin/idea/base/analysis/LibraryDependenciesCache.kt:94-109 | one module's entries add the candidates of its live libraries and its present JDKs, and queue each dependency not yet visited |
| LibraryDependencies.UsedIn | plugins/kotlin/base/analysis/src/org/jetbrains/kotlin/idea/base/analysis/LibraryDependenciesCache.kt:78-113 | the walk reaches exactly the least closed set of modules from the start, even on cyclic graphs, and returns their candidates and SDKs |
| LibraryDependencies.FilterForBuiltins | plugins/kotlin/base/analysis/src/org/jetbrains/kotlin/idea/base/analysis/LibraryDependenciesCache.kt:128-136 | a subset of the candidates; unchanged unless built-ins come from the library for a core Kotlin library, in which case only core Kotlin candidates remain |
| LibraryDependencies.Flatten | plugins/kotlin/base/analysis/src/org/jetbrains/kotlin/idea/base/analysis/LibraryDependenciesCache.kt:51-56 | exactly the libraries of the candidates |
| LibraryDependencies.DependenciesUnique | plugins/kotlin/base/analysis/src/org/jetbrains/kotlin/idea/base/analysis/LibraryDependenciesCache.kt:51-76 | a library's dependencies are fully determined by the project |
| LibraryDependencies.ModuleResultUnique | plugins/kotlin/base/analysis/src/org/jetbrains/kotlin/idea/base/analysis/LibraryDependenciesCache.kt:78-113 | a module's candidates and SDKs are fully determined by the project |
| LibraryDependencies.LibraryDependenciesCache.constructor | plugins/kotlin/base/analysis/src/org/jetbrains/kotlin/idea/base/analysis/LibraryDependenciesCache.kt:144-158 | an empty cache over the built usage index |
| LibraryDependencies.LibraryDependenciesCache.ModuleDependencies | plugins/kotlin/base/analysis/src/org/jetbrains/kotlin/idea/base/analysis/LibraryDependenciesCache.kt:62-68 | the module's walk result, computed once and afterwards returned unchanged |
| LibraryDependencies.LibraryDependenciesCache.UsedWithNoFilter | plugins/kotlin/base/analysis/src/org/jetbrains/kotlin/idea/base/analysis/LibraryDependenciesCache.kt:59-76 | the filtered candidates and the SDKs of all modules reached from the modules that use the library |
| LibraryDependencies.LibraryDependenciesCache.UsedWith | plugins/kotlin/base/analysis/src/org/jetbrains/kotlin/idea/base/analysis/LibraryDependenciesCache.kt:51-56 | the libraries are the flattened filtered candidates and the SDKs the aggregated set |
| LibraryDependencies.LibraryDependenciesCache.GetLibraryDependencies | plugins/kotlin/base/analysis/src/org/jetbrains/kotlin/idea/base/analysis/LibraryDependenciesCache.kt:47-49 | computed at most once per library, afterwards returned unchanged |
| RefreshWorker.FindIgnoringCase | platform/vfs-impl/src/com/intellij/openapi/vfs/newvfs/RefreshWorker.java:170-171 | a name equal ignoring case when one exists, none otherwise |
| RefreshWorker.RenameTarget | platform/vfs-impl/src/com/intellij/openapi/vfs/newvfs/RefreshWorker.java:446-457 | only in a case-insensitive directory, and only a differently spelled name equal ignoring case |
| RefreshWorker.NoRenameForExactSpelling | platform/vfs-impl/src/com/intellij/openapi/vfs/newvfs/RefreshWorker.java:446-457 | when no earlier listed name equals the child's name ignoring case, a listing of its exact spelling gives no rename, and a listing of another such spelling renames to exactly that spelling |
| RefreshWorker.NameDiff | platform/vfs-impl/src/com/intellij/openapi/vfs/newvfs/RefreshWorker.java:154-168 | new names are up-to-date names minus the loaded children's or the persisted names, by branch; deleted names are persisted minus up-to-date |
| RefreshWorker.NameDiffPartition | platform/vfs-impl/src/com/intellij/openapi/vfs/newvfs/RefreshWorker.java:154-168 | no name is both new and deleted, and every name seen is new, deleted or present on both sides |
| RefreshWorker.DropMatching | platform/vfs-impl/src/com/intellij/openapi/vfs/newvfs/RefreshWorker.java:221 | removes exactly the new children equal to the name ignoring case |
| RefreshWorker.KidsAfterRenamesSpec | platform/vfs-impl/src/com/intellij/openapi/vfs/newvfs/RefreshWorker.java:217-227 | a new child survives exactly when no renamed deleted name equals it ignoring case |
| RefreshWorker.DeletedNameEventsCount | platform/vfs-impl/src/com/intellij/openapi/vfs/newvfs/RefreshWorker.java:217-227 | one event, a deletion or a rename, per deleted name that still has a child |
| RefreshWorker.Worker.constructor | platform/vfs-impl/src/com/intellij/openapi/vfs/newvfs/RefreshWorker.java:44-51 | the queue holds just the root and nothing is cancelled or recorded |
| RefreshWorker.Worker.Cancel | platform/vfs-impl/src/com/intellij/openapi/vfs/newvfs/RefreshWorker.java:58-61 | sets the cancellation flag |
| RefreshWorker.Worker.ForceMarkDirty | platform/vfs-impl/src/com/intellij/openapi/vfs/newvfs/RefreshWorker.java:376-379 | adds the file to the dirty set |
| RefreshWorker.Worker.CheckCancelled | platform/vfs-impl/src/com/intellij/openapi/vfs/newvfs/RefreshWorker.java:360-374 | when cancelled, marks the stop file and every queued file dirty, empties the queue and aborts; otherwise changes nothing |
| RefreshWorker.Worker.QueueDirectory | platform/vfs-impl/src/com/intellij/openapi/vfs/newvfs/RefreshWorker.java:102-109 | queues the file only if it is a directory |
| RefreshWorker.Worker.FileTypeChange | platform/vfs-impl/src/com/intellij/openapi/vfs/newvfs/RefreshWorker.java:419-444 | fires exactly on a type change and then schedules the deletion and re-creation events |
| RefreshWorker.Worker.FileNameChange | platform/vfs-impl/src/com/intellij/openapi/vfs/newvfs/RefreshWorker.java:446-457 | schedules a rename exactly when the case-insensitive names map the name to a different spelling |
| RefreshWorker.Worker.ScheduleDeletedNames | platform/vfs-impl/src/com/intellij/openapi/vfs/newvfs/RefreshWorker.java:217-227 | the loop over deleted names emits the reference events and leaves the reference new children |
| RefreshWorker.Worker.ChildRefresh | platform/vfs-impl/src/com/intellij/openapi/vfs/newvfs/RefreshWorker.java:381-417 | the events, dirty set and queue become `RefreshEvents`, `RefreshedDirty` and `RefreshedQueue` of the old state, whose cases `ChildRefreshCases` states |
| RefreshWorker.Worker.ChildRefreshCases | platform/vfs-impl/src/com/intellij/openapi/vfs/newvfs/RefreshWorker.java:381-417 | a clean child is left alone; a type change is reported and leaves the child clean and unqueued; otherwise the attributes are checked, a regular file ends clean, and a directory stays dirty and is queued in recursive mode only |
| RefreshWorker.Worker.ScheduleAttributeChecks | platform/vfs-impl/src/com/intellij/openapi/vfs/newvfs/RefreshWorker.java:395-412 | appends the writable check, the hidden check on Windows, the symlink check for a symlink and the content check for a non-directory, in that order |
| RefreshWorker.Worker.RefreshOnce | platform/vfs-impl/src/com/intellij/openapi/vfs/newvfs/RefreshWorker.java:111-138 | counts one scan; when cancelled, marks the directory and the queue dirty and empties the queue without consuming an outcome; otherwise the state becomes `Attempted` (next outcome consumed, its subdirectories queued in recursive mode even when it was an invalid-file access, a success counted and, in recursive mode, the directory clean) and `finished` says whether the outcome ended the retries |
| RefreshWorker.Worker.QueueStep | platform/vfs-impl/src/com/intellij/openapi/vfs/newvfs/RefreshWorker.java:113-135 | refreshes the directory being retried, or else takes the head of the queue; the state becomes `Attempted` of that directory, keeping what an aborted attempt queued, and the directory stays current exactly when the outcome neither succeeded nor was an invalid-file access |
| RefreshWorker.RetryUntilFinished | platform/vfs-impl/src/com/intellij/openapi/vfs/newvfs/RefreshWorker.java:113-135 | attempt i + 1 refreshes the same directory as attempt i unless attempt i finished it, and then the next directory in queue order |
| RefreshWorker.SucceededDirsSpec | platform/vfs-impl/src/com/intellij/openapi/vfs/newvfs/RefreshWorker.java:131-136 | a directory is among those marked clean exactly when one of its attempts succeeded |
| RefreshWorker.Worker.ProcessQueue | platform/vfs-impl/src/com/intellij/openapi/vfs/newvfs/RefreshWorker.java:111-138 | `ProcessedFrom`: consumes a prefix of the outcomes, counting scans and successes; aborts exactly when cancelled with work to do, re-dirtying and emptying the queue; otherwise attempt i refreshes the directory of turn `Finished(outcomes[..i])` in the order of the starting queue followed by what the attempts queued (those that hit an invalid-file access included), the untaken directories stay queued, it stops only when the queue or the outcomes run out and, with outcomes left, only with an empty queue right after an attempt that finished its directory (no retry pending), and in recursive mode exactly the succeeded directories become clean |
| RefreshWorker.Worker.Scan | platform/vfs-impl/src/com/intellij/openapi/vfs/newvfs/RefreshWorker.java:63-100 | a root without attributes is scheduled for deletion and marked clean, and nothing else happens; otherwise the root gets the child-refresh events and dirty change, is queued again when still a dirty directory with nothing else queued, and the queue is then processed as `ProcessedFrom` states |
| SettingsSync.Url | plugins/settings-sync/src/com/intellij/settingsSync/CloudConfigServerCommunicator.kt:37-49 | the explicit property, else the debug URL from sources, else the production URL |
| SettingsSync.HandleRemoteError | plugins/settings-sync/src/com/intellij/settingsSync/CloudConfigServerCommunicator.kt:174-184 | an I/O error's message, or the default text when it has none or the error is of another kind |
| SettingsSync.ContextForCall | plugins/settings-sync/src/com/intellij/settingsSync/CloudConfigServerCommunicator.kt:229-240 | the given version, if any, is stored for the snapshot path and nothing else changes |
| SettingsSync.RememberedAfter | plugins/settings-sync/src/com/intellij/settingsSync/CloudConfigServerCommunicator.kt:229-252 | only the snapshot path can change; a failed call changes nothing; a version left in the context becomes the remembered one |
| SettingsSync.GivenVersionRemembered | plugins/settings-sync/src/com/intellij/settingsSync/CloudConfigServerCommunicator.kt:229-252 | a given version that the server leaves in place is remembered after a successful call |
| SettingsSync.Communicator.constructor | plugins/settings-sync/src/com/intellij/settingsSync/CloudConfigServerCommunicator.kt:213-215 | nothing remembered and an empty context |
| SettingsSync.Communicator.Get | plugins/settings-sync/src/com/intellij/settingsSync/CloudConfigServerCommunicator.kt:217-219 | the context's value for the path, or null |
| SettingsSync.Communicator.Store | plugins/settings-sync/src/com/intellij/settingsSync/CloudConfigServerCommunicator.kt:221-223 | the context maps the path to the value |
| SettingsSync.Communicator.Remove | plugins/settings-sync/src/com/intellij/settingsSync/CloudConfigServerCommunicator.kt:225-227 | the context no longer holds the path |
| SettingsSync.Communicator.Remembered | plugins/settings-sync/src/com/intellij/settingsSync/CloudConfigServerCommunicator.kt:77-80 | the remembered snapshot version, if any |
| SettingsSync.Communicator.DoWithVersion | plugins/settings-sync/src/com/intellij/settingsSync/CloudConfigServerCommunicator.kt:229-252 | the call's outcome; the remembered versions follow `RememberedAfter`; the context ends empty whether the call returned or failed |
| SettingsSync.Communicator.GetCurrentVersion | plugins/settings-sync/src/com/intellij/settingsSync/CloudConfigServerCommunicator.kt:76-100 | the remembered version if any, else the server's latest; "file not found" counts as no version and other failures propagate |
| SettingsSync.Communicator.CheckServerState | plugins/settings-sync/src/com/intellij/settingsSync/CloudConfigServerCommunicator.kt:102-114 | no file exactly when the server has none; up to date exactly when its version is the remembered one; update needed exactly when it differs; failures are reported through `handleRemoteError` |
| SettingsSync.Communicator.UpToDateSendsServerVersion | plugins/settings-sync/src/com/intellij/settingsSync/CloudConfigServerCommunicator.kt:76-114 | when the server is up to date, the version a write would send is the server's own |
| SettingsSync.Communicator.NothingRememberedNeedsUpdate | plugins/settings-sync/src/com/intellij/settingsSync/CloudConfigServerCommunicator.kt:102-114 | with nothing remembered, an existing server file always needs an update |
| SettingsSync.Communicator.Delete | plugins/settings-sync/src/com/intellij/settingsSync/CloudConfigServerCommunicator.kt:202-206 | the remembered version is forgotten even when the call fails, so the server is never up to date afterwards; the call's outcome is reported |

## Left out

- I/O, threads, locks, timing, logging and progress indicators are not modelled. Every outside answer
  (file system, Subversion server, cloud server) is a parameter.
- Inline depth: the compiler constants behind the suffix and the marker prefixes are parameters, and the
  suffix is required to be non-empty. With an empty suffix the loop would never end.
- Inline depth: `InlineStackFrame` and the dex VM are not part of this model. Locals are a name and a slot.
- Pull-request search: `GHPRSearchQuery` rendering to text and the popup UI are not part of this model.
- JPS paths: `MavenId.toJarPath` is not part of this model. A Maven path is taken as a given string.
- IDE starter: `SystemInfo` and the `os.arch` property are a host record passed in. Kotlin's
  `isNullOrBlank` uses JVM whitespace (`Character.isWhitespace` or `isSpaceChar`), and so does the model.
- IDE starter: the installer download code is not part of this model.
- SvnLocation.GetLocalPath: `LocationDetector.filePathByUrlAndPath` and `getPresentableUrl` are a locator
  function passed in.
- SvnHistory:
  - `updateBranchInfo`, `getBranchForUrl`, the working-copy root and `SvnVcs` are not part of this model.
  - Subversion exceptions from `checkPath`/listing are treated as "no answer".
  - The log entry's map is a sequence of distinct paths.
  - `HashSet` iteration order is not modelled. The change list is specified by which change each path
    gets and by the three blocks (added, deleted, changed), not by the order inside a block.
- SvnHistory.Truncate: `IOUtil.writeUTFTruncated` is not part of this model. It is taken to keep the
  first characters up to a limit, which is a parameter of `Truncate`, `WriteToStream` and
  `StreamRoundTrip`; the truncated message is taken to be always writable.
- SvnHistory.EncodedLength: characters are Unicode scalar values, and one beyond U+FFFF counts as
  the two UTF-16 halves Java stores; `writeUTF`'s partial output before it throws is not modelled,
  because the write then ends with the error.
- SvnHistory stream: the stream is a list of typed tokens, with UTF strings and longs. A token of the
  wrong kind is a read failure, as an `IOException` would be. A null date is not modelled.
- FileTestFixture:
  - `setUp`/`tearDown`, the disposable, the root creation, the builders' `withFiles` actions and
    `withSuppressedErrors` are not modelled.
  - The XML serialization of the state file is a `persisted` field holding the stored state, or
    "unreadable".
  - Deleting a directory removes just that path.
- FileTestFixture.Fixture.HasErrors: reads the recorded errors only. The source's `getErrors` first runs
  `root.refreshAndWait()`, whose events can reach `OnFileChanged` and add errors before the answer; that
  refresh is not modelled, so a caller must replay those changes through `OnFileChanged` first.
- LibraryDependencies:
  - The traversal done by `OrderEnumerator` is modelled as a worklist walk whose result is the least set of
    modules closed under module dependencies. A module-source entry adds nothing.
  - `LibraryInfoCache`, the platform checks, `isCoreKotlin` and `canDependOn` are parameters.
  - The result lists are sets, so their order is not modelled.
  - Project-model change listeners that drop cache entries are not modelled.
- RefreshWorker:
  - The NIO `LocalFileSystemRefreshWorker` branch and `replaceWithNativeFS` are not part of this model.
  - `fullDirRefresh`/`partialDirRefresh` beyond the name diff and the deleted-name loop are a scripted list
    of outcomes, one per refresh attempt, each with the subdirectories it queued; an invalid-file access
    keeps the subdirectories queued before it. The model stops when the script runs out.
  - Cancellation is checked once per attempt, at its start.
  - `childRecord`, `isFullScanDirectoryChanged` and the partial refresh's event generation are not modelled.
  - The refresh helper's events are a log of scheduled events.
  - `checkDirty` is membership in a dirty set, and `markDirty` does not propagate to parents.
  - The directory test uses the VFS record's directory flag.
- RefreshWorker.EqualsIgnoreCase: case folding is ASCII only, not `StringUtil.equalsIgnoreCase`'s
  full Unicode folding.
- RefreshWorker.FindIgnoringCase: `createFilePathSet` is a case-insensitive set. When two up-to-date
  names differ only in case, the model returns the first one listed.
- SettingsSync:
  - `receiveUpdates`, `push`, the snapshot upload and download, `getLatestVersion` and `fetchHistory` are
    not modelled beyond the server answer they give. Server calls are functions from the header context
    to an outcome and a new context.
  - Client configuration, authentication and the lazy client are not modelled.
