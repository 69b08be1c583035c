# GitPuller synchronisation engine, in Dafny

GitPuller pulls every local clone of a user's GitHub repositories. Its
synchronisation engine, `GithubOperation`, does four things:

- It lists the user's repositories and each repository's branches through
  two process-wide caches. Each cache is filled on a miss and emptied only
  by `ClearCache`.
- For every (repository, branch) pair it asks the matcher, `CheckRepo`,
  whether some configured local directory holds a clone of that pair. A
  directory is a clone when its name equals the repository name, or
  `{repository}-{branch}`, ignoring letter case.
- For every matched pair it issues one pull in the path found.
- A failure to list the repositories stops the run. A failure to list one
  repository's branches still lets every other repository be processed; the
  error then reaches the run's catch.

The project has six modules:

- `Outcomes` holds `Option` (a C# null) and `Result` (a value or a thrown
  exception).
- `PathText` holds the directory-name and case-insensitive comparison
  primitives.
- `Matcher` holds `CheckRepo` and its first-match scan.
- `Catalog` holds the caches as values, with the populate-on-miss lookups.
- `Dispatch` holds the pulls one run issues, as a function of the
  configured paths, the repositories, the branch cache and the remote's
  answers.
- `Sync` holds `GithubOperation`, a class whose two map fields are the
  caches. Its methods look up, fill and clear them, and run the dispatch
  loop. Each method is proved against the functions of `Catalog` and
  `Dispatch`.

The remote GitHub API is not called. Each method receives, as parameters,
the answers the remote would give: a `Result<seq<Repository>>` for the
repository listing, and a function from repository id to
`Result<seq<Branch>>` for the branch listings. A ghost out-parameter
`fetched` records whether a lookup consulted the remote. The configured
local paths are a parameter too. `ConfigurationManager.GetRepositoryPaths`
never returns null (GitPuller/ConfigurationManager.cs:37-48), so the
dispatch takes a plain sequence, while `CheckRepo` itself takes an
`Option`.

The concurrent per-repository and per-branch tasks run one after another,
repository by repository and, within one repository, branch by branch. The
model therefore fixes one order among those the program allows; see
"Left out".

## Model

| member | source | states |
|---|---|---|
| Matcher.CheckRepo | GitPuller/GithubOperation.cs:141-157 | matched exactly when a path is reported; a reported path is one of the configured paths; a null or empty list matches nothing and reports no path |
| Matcher.IsMatch | GitPuller/GithubOperation.cs:149-153 | definition without a contract: the predicate handed to FirstOrDefault, true when the path's directory name equals the repository name or "{repo}-{branch}", ignoring case |
| Matcher.BranchDirectoryName | GitPuller/GithubOperation.cs:152 | definition without a contract: the interpolated name "{repoName}-{branchName}" |
| PathText.EqualsIgnoreCase | GitPuller/GithubOperation.cs:151-152 | definition without a contract: ordinal case-insensitive equality, equal lengths and position-wise equal folded characters |
| Dispatch.BranchDispatch | GitPuller/GithubOperation.cs:58-64 | definition without a contract: what one branch's task issues, one pull in the found path when CheckRepo matches, none otherwise |
| Dispatch.ListingDispatch | GitPuller/GithubOperation.cs:55-66 | definition without a contract: what one repository's task issues, the branch tasks' pulls in order, or none when the listing throws |
| Dispatch.Dispatched | GitPuller/GithubOperation.cs:50-74 | definition without a contract: the pulls of a whole run, each repository's task's pulls in repository order |
| Dispatch.SomeListingFails | GitPuller/GithubOperation.cs:74-79 | definition without a contract: some repository's branch listing (line 55) throws, so Task.WhenAll (line 74) rethrows into the catch (line 79) |
| Catalog.BranchListing | GitPuller/GithubOperation.cs:103-108 | definition without a contract: what a branch lookup answers, the cached list on a hit, the remote's answer otherwise |
| Catalog.FillBranchCache | GitPuller/GithubOperation.cs:100-111 | definition without a contract: the branch cache after one branch lookup (line 55, storing with TryAdd at line 109) per repository, in order |
| Matcher.CheckRepoFirstMatchWins | GitPuller/GithubOperation.cs:145-156 | matched if and only if some configured path's directory name matches; the reported path is the earliest matching one, and no path before it matches |
| Matcher.FirstIndex | GitPuller/GithubOperation.cs:148-153 | FirstOrDefault's scan: a reported position is in range and satisfies the predicate, no earlier position does, and "none" means no position does |
| Matcher.FirstIndexIsUnique | GitPuller/GithubOperation.cs:148-153 | a position that matches, with no match before it, is the one the scan reports |
| Matcher.FirstIndexDependsOnlyOnMatches | GitPuller/GithubOperation.cs:148-153 | two scans that agree on which positions match report the same position |
| Matcher.IsMatchIgnoresNameCase | GitPuller/GithubOperation.cs:150-152 | whether one path matches does not depend on the letter case of the repository or branch name |
| Matcher.CheckRepoIgnoresNameCase | GitPuller/GithubOperation.cs:141-157 | CheckRepo's whole answer is unchanged by case variants of the repository and branch names |
| Matcher.CheckRepoIgnoresDirectoryCase | GitPuller/GithubOperation.cs:148-153 | case variants of the directory names change neither whether CheckRepo matches nor the position it reports |
| Matcher.CloneNamedAfterRepositoryMatches | GitPuller/GithubOperation.cs:148-156 | a single clone named after the repository, in any letter case and under any parent, is found |
| PathText.LastSegment | GitPuller/GithubOperation.cs:150 | the directory name is a suffix of the path, holds no separator, and is preceded by a separator unless it is the whole path |
| PathText.LastSegmentOfChild | GitPuller/GithubOperation.cs:150 | a separator-free name placed under any parent is read back as the directory name |
| PathText.FoldCharSame | GitPuller/GithubOperation.cs:151-152 | two characters compare equal ignoring case exactly when they are equal or are the two cases of one letter |
| PathText.Fold | GitPuller/GithubOperation.cs:151-152 | the folded string has the same length, folds each character, and holds no lower-case letter |
| PathText.FoldIdempotent | GitPuller/GithubOperation.cs:151-152 | folding twice is folding once |
| PathText.FoldAppend | GitPuller/GithubOperation.cs:151-152 | folding distributes over concatenation |
| PathText.EqualsIgnoreCaseIsFoldEquality | GitPuller/GithubOperation.cs:151-152 | case-insensitive equality holds exactly when the folded strings are equal |
| PathText.EqualsIgnoreCaseIsEquivalence | GitPuller/GithubOperation.cs:151-152 | case-insensitive equality is reflexive, symmetric and transitive |
| PathText.EqualsIgnoreCaseAppend | GitPuller/GithubOperation.cs:152 | "{repo}-{branch}" built from case variants is a case variant |
| Catalog.TryAdd | GitPuller/GithubOperation.cs:109 | an entry is added only when the key is absent, an existing entry is never replaced, and other entries are kept |
| Catalog.RepositoriesLookup | GitPuller/GithubOperation.cs:86-98 | a hit returns the cached list without a remote call and changes nothing; a miss returns the remote's answer; only a successful answer is stored, under "current_user_repos"; the branch cache is untouched |
| Catalog.BranchesLookup | GitPuller/GithubOperation.cs:100-111 | the same populate-on-miss rule keyed by the repository id; the repository cache is untouched |
| Catalog.RepositoriesLookupIdempotent | GitPuller/GithubOperation.cs:90-93 | after a successful lookup, the next one is a hit with the same list and no change, whatever the remote would answer |
| Catalog.RepositoriesFailureNotCached | GitPuller/GithubOperation.cs:95-96 | a failed fetch is not cached: the next lookup calls the remote again |
| Catalog.BranchesLookupIdempotent | GitPuller/GithubOperation.cs:103-106 | after a successful branch lookup, any lookup for the same id is a hit with the same list |
| Catalog.BranchesLookupIndependent | GitPuller/GithubOperation.cs:100-111 | a lookup for one id changes neither the answer nor the remote call of a lookup for another id |
| Catalog.ClearedCacheRefetches | GitPuller/GithubOperation.cs:203-207 | after clearing, both lookups call the remote |
| Catalog.FillBranchCacheKeepsListings | GitPuller/GithubOperation.cs:50-55 | after a run's branch lookups, old entries are kept; new entries exist only for listed repositories whose fetch succeeded, and exist for all of them; what a lookup answers never changes |
| Catalog.FillBranchCacheStep | GitPuller/GithubOperation.cs:55 | one more repository's branch lookup answers as the cache before the run would, and extends the filled cache by that repository |
| Dispatch.BranchDispatchMatchesOnly | GitPuller/GithubOperation.cs:58-64 | a branch gives at most one pull; it gives one exactly when some path matches, in the first matching path, for that branch and repository |
| Dispatch.RepositoryNamedCloneServesEveryBranch | GitPuller/GithubOperation.cs:58-64 | a clone named after the repository makes every branch of that repository be pulled |
| Dispatch.FlatMapExactlyOnce | GitPuller/GithubOperation.cs:50-74 | each repository's or branch's pulls appear once, at its place in list order |
| Dispatch.FlatMapSkipsEmpty | GitPuller/GithubOperation.cs:50-74 | an element whose task issues nothing can be dropped from the run without changing it |
| Dispatch.FlatMapMembers | GitPuller/GithubOperation.cs:50-74 | a pull is issued exactly when some element's task issues it |
| Dispatch.FlatMapPointwise | GitPuller/GithubOperation.cs:50-74 | the issued pulls depend only on what each element's task issues |
| Dispatch.DispatchedStep | GitPuller/GithubOperation.cs:50-74 | one more repository appends exactly its own pulls, or none when its listing fails |
| Dispatch.SomeListingFailsStep | GitPuller/GithubOperation.cs:50-74 | the run fails after one more repository exactly when it had failed already or that repository's listing fails |
| Dispatch.ListingDispatchBounded | GitPuller/GithubOperation.cs:58-64 | a repository gets at most one pull per listed branch |
| Dispatch.DispatchedMembers | GitPuller/GithubOperation.cs:50-74 | exactly the matched pairs are dispatched: a pull is issued if and only if it is the matcher's pull for a listed (repository, branch) pair |
| Dispatch.NoPathsNoDispatch | GitPuller/GithubOperation.cs:145 | with no configured paths nothing is pulled |
| Dispatch.FailedListingAddsNothing | GitPuller/GithubOperation.cs:50-74 | a repository whose branches cannot be listed adds no pull, and the repositories before and after it are all still processed: the run issues exactly their pulls |
| Dispatch.MatchedPairDispatchedOnce | GitPuller/GithubOperation.cs:50-74 | each matched (repository, branch) pair is pulled exactly once: the run (Dispatched, the concatenation over the repositories) is the earlier repositories' pulls, the earlier branches' pulls, that pair's one pull, then the rest |
| Sync.GithubOperation.constructor | GitPuller/GithubOperation.cs:22-23 | both caches start empty |
| Sync.GithubOperation.GetCachedRepositories | GitPuller/GithubOperation.cs:86-98 | returns, and leaves in the caches, exactly what RepositoriesLookup gives for the caches before the call |
| Sync.GithubOperation.GetAllBranchesFromCurrentRepository | GitPuller/GithubOperation.cs:100-111 | returns, and leaves in the caches, exactly what BranchesLookup gives for the caches before the call |
| Sync.GithubOperation.ClearCache | GitPuller/GithubOperation.cs:203-207 | both caches are empty afterwards, so a second call changes nothing |
| Sync.GithubOperation.GetGithubAllRepositoryAndBranches | GitPuller/GithubOperation.cs:41-84 | a failed repository fetch pulls nothing, fails, and leaves the caches as they were; otherwise the pulls are exactly Dispatched over the repositories, the run fails exactly when some branch listing fails, and the caches are the repository lookup's result and the filled branch cache |
| Sync.GithubOperation.ProcessRepositories | GitPuller/GithubOperation.cs:50-74 | every repository is processed; the pulls are Dispatched over them; failure is reported exactly when some listing fails; the branch cache is the filled cache |
| Sync.GithubOperation.ProcessRepository | GitPuller/GithubOperation.cs:52-71 | one repository's task: the branch lookup's cache change, a failure exactly when the listing fails, and the pulls for the listed branches |
| Sync.DispatchBranches | GitPuller/GithubOperation.cs:58-66 | the loop over one repository's branches issues the pulls the matcher decides, branch by branch |
| Sync.SecondRunUsesCache | GitPuller/GithubOperation.cs:46-55 | after a run whose branch listings all succeeded, every repository's branches are cached, and a second run issues the same pulls whatever the remote would answer |
| Scenarios.FooClonePath | GitPuller/GithubOperation.cs:150 | the directory name of /home/u/foo is foo |
| Scenarios.CloneNamedAfterRepositoryIsPulled | GitPuller/GithubOperation.cs:46-74 | repository foo with branch main and a clone at /home/u/foo gives exactly one pull, of main, in that clone |
| Scenarios.FooCloneIsNotBarDev | GitPuller/GithubOperation.cs:141-157 | the clone /home/u/foo does not match repository bar, branch dev |
| Scenarios.UnmatchedPairIsNotPulled | GitPuller/GithubOperation.cs:58-64 | one concrete run: repository bar (id 2) with branch dev, an empty branch cache and the single path /home/u/foo issues no pull |

## Left out

- Sync.GithubOperation.constructor: the caches are static in the program. The constructor stands for their one-time static initialisation, not for the C# constructor (lines 28-39), which leaves the caches as they are. Every instance the program creates later (one per synchronisation request) shares these caches; the model has one object for them.
- Concurrency: the semaphore of ten slots (line 26) and the `Task.WhenAll` fan-out (lines 50-74) are modelled as a sequential loop in a fixed order. The program may issue the same pulls in another order, and may fetch one repository id's branches twice when two tasks miss together; `TryAdd` then keeps the first list.
- The GitHub client (Octokit), its credentials and its timeout (lines 28-39): the remote's answers are parameters.
- `ExecuteGitCommands` (lines 113-139): a pull is recorded as a `PullUnit` and not executed. It catches every exception, so a pull never fails the run. `CommandExecuter.PullRepository` is not part of this model.
- `RepositoryAndBranchesToTreeView` (lines 159-200) and the UI update at line 77: it builds tree nodes only. After a successful run it is served from the caches, so it changes neither cache.
- Console logging (lines 81, 124-137, 198) and `Dispose` (lines 210-213).
- Form1.cs, Program.cs and ConfigurationManager.cs: the configured paths are a parameter.
- PathText.LastSegment: it stands in for `DirectoryInfo.Name` on ordinary paths only. A trailing separator, trailing spaces or dots in the last segment (the program names `C:\r\foo ` as `foo`), a drive root or `.`/`..` segments are not normalised, so such a path yields a different name than the program. An empty path string, on which `DirectoryInfo` throws (line 150), is not modelled: the model's scan passes over it and goes on to later paths, so where the program's scan stops with an exception, that branch gets no pull and the run reaches the catch at line 79, the model may issue a pull and reports no failure.
- PathText.EqualsIgnoreCase: ordinal case-insensitive comparison is modelled for the ASCII letters only. Dafny's `char` is a Unicode scalar, not a UTF-16 code unit.
- Sync.GithubOperation.GetGithubAllRepositoryAndBranches: returns a `failed` flag instead of writing the exception message to the console. It does not model the tree view the program runs after a successful run.
