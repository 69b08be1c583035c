/** The remote catalog's two caches, as values: the repository list, kept
    under one constant key, and the branch lists, kept per repository id.
    Both are filled on a miss with TryAdd and are never overwritten; only
    ClearCache empties them. The remote API is an oracle: each lookup is
    given the answer the remote would give if it were called. */
module Catalog {
  import opened Outcomes

  /** Octokit's long repository id. */
  type RepoId = int

  datatype Repository = Repository(id: RepoId, name: string)

  datatype Branch = Branch(name: string)

  /** The one key under which the current user's repositories are cached. */
  const CurrentUserRepos: string := "current_user_repos"

  /** ConcurrentDictionary.TryAdd: inserts only when the key is absent and
      reports whether it did; an existing entry is never replaced. */
  function TryAdd<K, V>(m: map<K, V>, key: K, value: V): (r: (map<K, V>, bool))
    ensures r.1 <==> key !in m
    ensures r.0.Keys == m.Keys + {key}
    ensures r.0[key] == if r.1 then value else m[key]
    ensures forall k :: k in m ==> r.0[k] == m[k]
  {
    if key in m then (m, false) else (m[key := value], true)
  }

  /** The contents of both caches. */
  datatype CacheState = CacheState(repositories: map<string, seq<Repository>>, branches: map<RepoId, seq<Branch>>)

  const EmptyCache: CacheState := CacheState(map[], map[])

  /** What one cached lookup yields: the caches afterwards, the answer, and
      whether the remote was called to get it. */
  datatype Lookup<T> = Lookup(after: CacheState, result: Result<T>, fetched: bool)

  /** t keeps every entry of s, with the same value, in both caches. */
  predicate Extends(s: CacheState, t: CacheState) {
    && (forall k :: k in s.repositories ==> k in t.repositories && t.repositories[k] == s.repositories[k])
    && (forall id :: id in s.branches ==> id in t.branches && t.branches[id] == s.branches[id])
  }

  /** GetCachedRepositories on the cache contents. A hit is served from the
      cache without a remote call; a miss calls the remote, and only a
      successful answer is stored, under CurrentUserRepos. */
  function RepositoriesLookup(s: CacheState, remote: Result<seq<Repository>>): (r: Lookup<seq<Repository>>)
    ensures r.fetched <==> CurrentUserRepos !in s.repositories
    ensures !r.fetched ==> r.result == Success(s.repositories[CurrentUserRepos]) && r.after == s
    ensures r.fetched ==> r.result == remote
    ensures r.result.Success? ==>
      CurrentUserRepos in r.after.repositories && r.after.repositories[CurrentUserRepos] == r.result.value
    ensures r.result.Failure? ==> r.after == s
    ensures Extends(s, r.after)
    ensures r.after.repositories.Keys <= s.repositories.Keys + {CurrentUserRepos}
    ensures r.after.branches == s.branches
  {
    if CurrentUserRepos in s.repositories then
      Lookup(s, Success(s.repositories[CurrentUserRepos]), false)
    else match remote
      case Failure(e) => Lookup(s, Failure(e), true)
      case Success(repositories) =>
        Lookup(s.(repositories := TryAdd(s.repositories, CurrentUserRepos, repositories).0), Success(repositories), true)
  }

  /** GetAllBranchesFromCurrentRepository on the cache contents: the same
      populate-on-miss rule, keyed by the repository's id. */
  function BranchesLookup(s: CacheState, repository: Repository, remote: Result<seq<Branch>>): (r: Lookup<seq<Branch>>)
    ensures r.fetched <==> repository.id !in s.branches
    ensures !r.fetched ==> r.result == Success(s.branches[repository.id]) && r.after == s
    ensures r.fetched ==> r.result == remote
    ensures r.result.Success? ==>
      repository.id in r.after.branches && r.after.branches[repository.id] == r.result.value
    ensures r.result.Failure? ==> r.after == s
    ensures Extends(s, r.after)
    ensures r.after.branches.Keys <= s.branches.Keys + {repository.id}
    ensures r.after.repositories == s.repositories
  {
    if repository.id in s.branches then
      Lookup(s, Success(s.branches[repository.id]), false)
    else match remote
      case Failure(e) => Lookup(s, Failure(e), true)
      case Success(branches) =>
        Lookup(s.(branches := TryAdd(s.branches, repository.id, branches).0), Success(branches), true)
  }

  /** What a branch lookup for `id` answers, given the cache and the remote
      per id: the cached list if there is one, otherwise the remote's answer. */
  function BranchListing(cache: map<RepoId, seq<Branch>>, remote: RepoId -> Result<seq<Branch>>, id: RepoId): Result<seq<Branch>> {
    if id in cache then Success(cache[id]) else remote(id)
  }

  /** The branch cache after branch lookups for each of `repositories`, in
      order: only a miss whose fetch succeeds adds an entry. */
  function FillBranchCache(cache: map<RepoId, seq<Branch>>, remote: RepoId -> Result<seq<Branch>>,
                           repositories: seq<Repository>): map<RepoId, seq<Branch>>
  {
    if repositories == [] then cache
    else
      var last := repositories[|repositories| - 1];
      var filled := FillBranchCache(cache, remote, repositories[..|repositories| - 1]);
      BranchesLookup(CacheState(map[], filled), last, remote(last.id)).after.branches
  }

  /** Filling keeps every cached entry, adds an entry only for a listed
      repository whose fetch succeeded, adds one for every such repository,
      and so never changes what a branch lookup answers. */
  lemma {:induction false} FillBranchCacheKeepsListings(cache: map<RepoId, seq<Branch>>,
                                                        remote: RepoId -> Result<seq<Branch>>,
                                                        repositories: seq<Repository>)
    ensures var r := FillBranchCache(cache, remote, repositories);
      && (forall id :: id in cache ==> id in r && r[id] == cache[id])
      && (forall id :: id in r && id !in cache ==>
            remote(id) == Success(r[id]) && exists i :: 0 <= i < |repositories| && repositories[i].id == id)
      && (forall i :: 0 <= i < |repositories| && BranchListing(cache, remote, repositories[i].id).Success? ==>
            repositories[i].id in r)
      && (forall id :: BranchListing(r, remote, id) == BranchListing(cache, remote, id))
  {
    if repositories != [] {
      var init := repositories[..|repositories| - 1];
      FillBranchCacheKeepsListings(cache, remote, init);
      assert forall i :: 0 <= i < |init| ==> repositories[i] == init[i];
    }
  }

  /** One more repository's lookup extends the filled branch cache exactly as
      a branch lookup on it does; the repository cache plays no part. */
  lemma FillBranchCacheStep(cache: map<RepoId, seq<Branch>>, remote: RepoId -> Result<seq<Branch>>,
                            repositories: seq<Repository>, i: nat, s: CacheState)
    requires i < |repositories|
    requires s.branches == FillBranchCache(cache, remote, repositories[..i])
    ensures var lookup := BranchesLookup(s, repositories[i], remote(repositories[i].id));
      && lookup.after.branches == FillBranchCache(cache, remote, repositories[..i + 1])
      && lookup.result == BranchListing(cache, remote, repositories[i].id)
  {
    FillBranchCacheKeepsListings(cache, remote, repositories[..i]);
    assert repositories[..i + 1][..i] == repositories[..i];
  }

  /** A second repository lookup after a successful one is a hit: it calls
      no remote, returns the same list and changes nothing, whatever the
      remote would answer now. */
  lemma RepositoriesLookupIdempotent(s: CacheState, remote: Result<seq<Repository>>, remote': Result<seq<Repository>>)
    requires RepositoriesLookup(s, remote).result.Success?
    ensures var first := RepositoriesLookup(s, remote);
            RepositoriesLookup(first.after, remote') == Lookup(first.after, first.result, false)
  {
  }

  /** A failed fetch is not cached: the next lookup calls the remote again. */
  lemma RepositoriesFailureNotCached(s: CacheState, remote: Result<seq<Repository>>, remote': Result<seq<Repository>>)
    requires RepositoriesLookup(s, remote).result.Failure?
    ensures var retry := RepositoriesLookup(RepositoriesLookup(s, remote).after, remote');
            retry.fetched && retry.result == remote'
  {
  }

  /** A second branch lookup for the same id (by any repository carrying that
      id) after a successful one is a hit: same list, no remote call. */
  lemma BranchesLookupIdempotent(s: CacheState, repository: Repository, remote: Result<seq<Branch>>,
                                 other: Repository, remote': Result<seq<Branch>>)
    requires BranchesLookup(s, repository, remote).result.Success?
    requires other.id == repository.id
    ensures var first := BranchesLookup(s, repository, remote);
            BranchesLookup(first.after, other, remote') == Lookup(first.after, first.result, false)
  {
  }

  /** A branch lookup for one repository does not change what a lookup for
      a repository with another id answers, nor whether it calls the remote. */
  lemma BranchesLookupIndependent(s: CacheState, repository: Repository, remote: Result<seq<Branch>>,
                                  other: Repository, remote': Result<seq<Branch>>)
    requires other.id != repository.id
    ensures var after := BranchesLookup(s, repository, remote).after;
            BranchesLookup(after, other, remote').result == BranchesLookup(s, other, remote').result &&
            BranchesLookup(after, other, remote').fetched == BranchesLookup(s, other, remote').fetched
  {
  }

  /** After clearing, both lookups call the remote again. */
  lemma ClearedCacheRefetches(repository: Repository, remoteRepositories: Result<seq<Repository>>, remoteBranches: Result<seq<Branch>>)
    ensures RepositoriesLookup(EmptyCache, remoteRepositories).fetched
    ensures BranchesLookup(EmptyCache, repository, remoteBranches).fetched
  {
  }
}
