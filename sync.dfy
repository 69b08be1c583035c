/** The synchronisation engine, GithubOperation, as a class over its two
    caches. The caches are process-wide statics in the program; here one
    object stands for them, so every method that reads or fills a cache
    works on that object's fields. The remote API is an oracle: each method
    is given the answers the remote would give. */
module Sync {
  import opened Outcomes
  import opened Matcher
  import opened Catalog
  import opened Dispatch

  class GithubOperation {
    /** _repositoryCache: the repository list, under CurrentUserRepos. */
    var repositoryCache: map<string, seq<Repository>>
    /** _branchCache: branch lists keyed by repository id. */
    var branchCache: map<RepoId, seq<Branch>>

    function State(): CacheState
      reads this
    {
      CacheState(repositoryCache, branchCache)
    }

    /** The static initialisers: both caches start empty. */
    constructor ()
      ensures State() == EmptyCache
    {
      repositoryCache := map[];
      branchCache := map[];
    }

    /** GetCachedRepositories: a hit returns the cached list; a miss calls
        the remote (`remote` is its answer) and stores only a successful
        answer. `fetched` records whether the remote was called. */
    method GetCachedRepositories(remote: Result<seq<Repository>>)
      returns (repositories: Result<seq<Repository>>, ghost fetched: bool)
      modifies this`repositoryCache
      ensures var lookup := RepositoriesLookup(old(State()), remote);
        repositories == lookup.result && fetched == lookup.fetched && State() == lookup.after
    {
      var cacheKey := CurrentUserRepos;
      if cacheKey in repositoryCache {
        return Success(repositoryCache[cacheKey]), false;
      }
      fetched := true;
      repositories := remote;
      if repositories.Success? {
        repositoryCache := TryAdd(repositoryCache, cacheKey, repositories.value).0;
      }
    }

    /** GetAllBranchesFromCurrentRepository: the same populate-on-miss rule,
        keyed by the repository's id; `remote` is what the remote would
        answer for that id. */
    method GetAllBranchesFromCurrentRepository(repository: Repository, remote: Result<seq<Branch>>)
      returns (branches: Result<seq<Branch>>, ghost fetched: bool)
      modifies this`branchCache
      ensures var lookup := BranchesLookup(old(State()), repository, remote);
        branches == lookup.result && fetched == lookup.fetched && State() == lookup.after
    {
      if repository.id in branchCache {
        return Success(branchCache[repository.id]), false;
      }
      fetched := true;
      branches := remote;
      if branches.Success? {
        branchCache := TryAdd(branchCache, repository.id, branches.value).0;
      }
    }

    /** ClearCache: both caches are emptied; calling it again changes
        nothing more. */
    method ClearCache()
      modifies this
      ensures State() == EmptyCache
    {
      branchCache := map[];
      repositoryCache := map[];
    }

    /** GetGithubAllRepositoryAndBranches, with the concurrent per-repository
        and per-branch tasks run one after another. Returns the pulls issued,
        in order, and whether an exception reached the catch.
        `repositoryPaths` is the configured local path list;
        `remoteRepositories` and `remoteBranches` are the remote's answers. */
    method GetGithubAllRepositoryAndBranches(repositoryPaths: seq<string>,
                                             remoteRepositories: Result<seq<Repository>>,
                                             remoteBranches: RepoId -> Result<seq<Branch>>)
      returns (dispatched: seq<PullUnit>, failed: bool)
      modifies this
      ensures var lookup := RepositoriesLookup(old(State()), remoteRepositories);
        lookup.result.Failure? ==> dispatched == [] && failed && State() == old(State())
      ensures var lookup := RepositoriesLookup(old(State()), remoteRepositories);
        lookup.result.Success? ==>
          var repositories := lookup.result.value;
          && dispatched == Dispatched(repositoryPaths, repositories, old(branchCache), remoteBranches)
          && failed == SomeListingFails(old(branchCache), remoteBranches, repositories)
          && repositoryCache == lookup.after.repositories
          && branchCache == FillBranchCache(old(branchCache), remoteBranches, repositories)
    {
      var listed, _ := GetCachedRepositories(remoteRepositories);
      if listed.Failure? {
        return [], true;
      }
      dispatched, failed := ProcessRepositories(repositoryPaths, listed.value, remoteBranches);
    }

    /** The per-repository tasks of GetGithubAllRepositoryAndBranches, all
        awaited: every repository is processed even when the branch listing
        of another one fails, and `failed` reports whether any did. */
    method ProcessRepositories(repositoryPaths: seq<string>, repositories: seq<Repository>,
                               remoteBranches: RepoId -> Result<seq<Branch>>)
      returns (dispatched: seq<PullUnit>, failed: bool)
      modifies this`branchCache
      ensures dispatched == Dispatched(repositoryPaths, repositories, old(branchCache), remoteBranches)
      ensures failed == SomeListingFails(old(branchCache), remoteBranches, repositories)
      ensures branchCache == FillBranchCache(old(branchCache), remoteBranches, repositories)
    {
      dispatched, failed := [], false;
      var i := 0;
      while i < |repositories|
        invariant 0 <= i <= |repositories|
        invariant branchCache == FillBranchCache(old(branchCache), remoteBranches, repositories[..i])
        invariant dispatched == Dispatched(repositoryPaths, repositories[..i], old(branchCache), remoteBranches)
        invariant failed == SomeListingFails(old(branchCache), remoteBranches, repositories[..i])
      {
        FillBranchCacheStep(old(branchCache), remoteBranches, repositories, i, State());
        DispatchedStep(repositoryPaths, repositories, i, old(branchCache), remoteBranches);
        SomeListingFailsStep(old(branchCache), remoteBranches, repositories, i);
        var units, listingFailed := ProcessRepository(repositoryPaths, repositories[i], remoteBranches);
        dispatched := dispatched + units;
        failed := failed || listingFailed;
        i := i + 1;
      }
      assert repositories[..i] == repositories;
    }

    /** The per-repository task of GetGithubAllRepositoryAndBranches: list the
        repository's branches through the branch cache, then run the matcher
        for each branch. A failed listing issues nothing and is reported. */
    method ProcessRepository(repositoryPaths: seq<string>, repository: Repository,
                             remoteBranches: RepoId -> Result<seq<Branch>>)
      returns (units: seq<PullUnit>, failed: bool)
      modifies this`branchCache
      ensures var lookup := BranchesLookup(old(State()), repository, remoteBranches(repository.id));
        && State() == lookup.after
        && (failed <==> lookup.result.Failure?)
        && units == ListingDispatch(repositoryPaths, repository, lookup.result)
    {
      var branchList, _ := GetAllBranchesFromCurrentRepository(repository, remoteBranches(repository.id));
      if branchList.Failure? {
        return [], true;
      }
      units := DispatchBranches(repositoryPaths, repository, branchList.value);
      failed := false;
    }
  }

  /** The per-branch tasks of one repository: for each branch, in order, the
      matcher runs and a pull is issued at the path it found. */
  method DispatchBranches(repositoryPaths: seq<string>, repository: Repository, branches: seq<Branch>)
    returns (units: seq<PullUnit>)
    ensures units == FlatMap(branches, BranchDispatcher(repositoryPaths, repository))
  {
    units := [];
    var j := 0;
    while j < |branches|
      invariant 0 <= j <= |branches|
      invariant units == FlatMap(branches[..j], BranchDispatcher(repositoryPaths, repository))
    {
      var branch := branches[j];
      var m := CheckRepo(Some(repositoryPaths), repository.name, branch.name);
      if m.matched {
        units := units + [PullUnit(m.foundPath.value, branch.name, repository.name)];
      }
      assert branches[..j + 1][..j] == branches[..j];
      j := j + 1;
    }
    assert branches[..j] == branches;
  }

  /** Two runs in a row: the second is served entirely from the caches the
      first one filled when every branch listing succeeded, and issues the
      same pulls whatever the remote would answer by then. */
  lemma {:induction false} SecondRunUsesCache(paths: seq<string>, repositories: seq<Repository>,
                                              cache: map<RepoId, seq<Branch>>,
                                              remote: RepoId -> Result<seq<Branch>>,
                                              remote': RepoId -> Result<seq<Branch>>)
    requires forall i :: 0 <= i < |repositories| ==> BranchListing(cache, remote, repositories[i].id).Success?
    ensures var filled := FillBranchCache(cache, remote, repositories);
      && (forall i :: 0 <= i < |repositories| ==> repositories[i].id in filled)
      && Dispatched(paths, repositories, filled, remote') == Dispatched(paths, repositories, cache, remote)
  {
    var filled := FillBranchCache(cache, remote, repositories);
    FillBranchCacheKeepsListings(cache, remote, repositories);
    forall i | 0 <= i < |repositories|
      ensures RepositoryDispatcher(paths, filled, remote')(repositories[i]) ==
              RepositoryDispatcher(paths, cache, remote)(repositories[i])
    {
      assert BranchListing(filled, remote', repositories[i].id) == BranchListing(filled, remote, repositories[i].id);
    }
    FlatMapPointwise(repositories, RepositoryDispatcher(paths, filled, remote'), RepositoryDispatcher(paths, cache, remote));
  }
}
