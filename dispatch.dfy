/** Match-then-pull dispatch, as a value: the sequence of ExecuteGitCommands
    invocations that one synchronisation run issues, repository by
    repository and, within one repository, branch by branch. */
module Dispatch {
  import opened Outcomes
  import opened PathText
  import opened Matcher
  import opened Catalog

  /** One invocation of ExecuteGitCommands(path, branchName, repoName). */
  datatype PullUnit = PullUnit(path: string, branchName: string, repoName: string)

  /** What the inner loop body issues for one branch: the matcher runs, and a
      pull is issued only if it matched, at the path it found. */
  function BranchDispatch(paths: seq<string>, repository: Repository, branch: Branch): seq<PullUnit> {
    var m := CheckRepo(Some(paths), repository.name, branch.name);
    if m.matched then [PullUnit(m.foundPath.value, branch.name, repository.name)] else []
  }

  /** One branch gives at most one pull: exactly when some configured path
      matches it, and then in the first matching path, for that branch and
      repository. */
  lemma BranchDispatchMatchesOnly(paths: seq<string>, repository: Repository, branch: Branch)
    ensures var units := BranchDispatch(paths, repository, branch);
      && |units| <= 1
      && (units != [] <==> exists i :: 0 <= i < |paths| && IsMatch(paths[i], repository.name, branch.name))
      && (units != [] ==>
        && units[0].path in paths
        && IsMatch(units[0].path, repository.name, branch.name)
        && FirstIndex(paths, PathMatcher(repository.name, branch.name)).Some?
        && units[0].path == paths[FirstIndex(paths, PathMatcher(repository.name, branch.name)).value]
        && units[0].branchName == branch.name
        && units[0].repoName == repository.name)
  {
    CheckRepoFirstMatchWins(Some(paths), repository.name, branch.name);
  }

  /** A clone named after the repository itself matches every branch: each
      branch of that repository is pulled, each time into the first matching
      path. */
  lemma RepositoryNamedCloneServesEveryBranch(paths: seq<string>, repository: Repository, branch: Branch, k: nat)
    requires k < |paths| && EqualsIgnoreCase(LastSegment(paths[k]), repository.name)
    ensures var units := BranchDispatch(paths, repository, branch);
      |units| == 1 && units[0].branchName == branch.name && units[0].repoName == repository.name
  {
    assert IsMatch(paths[k], repository.name, branch.name);
    BranchDispatchMatchesOnly(paths, repository, branch);
  }

  /** The concatenation of f over xs, in list order: the sequential form of
      a Select over a list whose per-element tasks are all awaited. */
  function FlatMap<T, U>(xs: seq<T>, f: T -> seq<U>): seq<U> {
    if xs == [] then [] else FlatMap(xs[..|xs| - 1], f) + f(xs[|xs| - 1])
  }

  lemma {:induction false} FlatMapAppend<T, U>(xs: seq<T>, ys: seq<T>, f: T -> seq<U>)
    ensures FlatMap(xs + ys, f) == FlatMap(xs, f) + FlatMap(ys, f)
  {
    if ys == [] {
      assert xs + ys == xs;
    } else {
      var init, last := ys[..|ys| - 1], ys[|ys| - 1];
      assert (xs + ys)[..|xs + ys| - 1] == xs + init;
      assert (xs + ys)[|xs + ys| - 1] == last;
      FlatMapAppend(xs, init, f);
    }
  }

  /** Each element contributes exactly its own f-image, once, at its place. */
  lemma {:induction false} FlatMapExactlyOnce<T, U>(xs: seq<T>, f: T -> seq<U>, j: nat)
    requires j < |xs|
    ensures FlatMap(xs, f) == FlatMap(xs[..j], f) + f(xs[j]) + FlatMap(xs[j + 1..], f)
  {
    var pre, x, post := xs[..j], xs[j], xs[j + 1..];
    FlatMapAppend(pre, [x], f);
    FlatMapAppend(pre + [x], post, f);
    calc {
      FlatMap([x], f);
      FlatMap([x][..0], f) + f([x][0]);
      { assert [x][..0] == []; }
      f(x);
    }
    assert xs == pre + [x] + post;
  }

  /** An element whose image is empty can be dropped. */
  lemma FlatMapSkipsEmpty<T, U>(xs: seq<T>, f: T -> seq<U>, j: nat)
    requires j < |xs| && f(xs[j]) == []
    ensures FlatMap(xs, f) == FlatMap(xs[..j], f) + FlatMap(xs[j + 1..], f)
  {
    FlatMapExactlyOnce(xs, f, j);
    assert FlatMap(xs[..j], f) + f(xs[j]) == FlatMap(xs[..j], f);
  }

  lemma {:induction false} FlatMapMembers<T, U>(xs: seq<T>, f: T -> seq<U>, u: U)
    ensures u in FlatMap(xs, f) <==> exists j :: 0 <= j < |xs| && u in f(xs[j])
  {
    if xs != [] {
      var init, last := xs[..|xs| - 1], xs[|xs| - 1];
      FlatMapMembers(init, f, u);
      if u in FlatMap(init, f) {
        var j :| 0 <= j < |init| && u in f(init[j]);
        assert xs[j] == init[j];
      } else if u in f(last) {
        assert xs[|init|] == last;
      }
      if j :| 0 <= j < |xs| && u in f(xs[j]) {
        if j < |init| {
          assert init[j] == xs[j];
        }
      }
    }
  }

  /** Only the images of the elements matter. */
  lemma {:induction false} FlatMapPointwise<T, U>(xs: seq<T>, f: T -> seq<U>, g: T -> seq<U>)
    requires forall i :: 0 <= i < |xs| ==> f(xs[i]) == g(xs[i])
    ensures FlatMap(xs, f) == FlatMap(xs, g)
  {
    if xs != [] {
      var init := xs[..|xs| - 1];
      assert forall i :: 0 <= i < |init| ==> init[i] == xs[i];
      FlatMapPointwise(init, f, g);
    }
  }

  lemma {:induction false} FlatMapAtMostOne<T, U>(xs: seq<T>, f: T -> seq<U>)
    requires forall x :: |f(x)| <= 1
    ensures |FlatMap(xs, f)| <= |xs|
  {
    if xs != [] {
      FlatMapAtMostOne(xs[..|xs| - 1], f);
    }
  }

  function BranchDispatcher(paths: seq<string>, repository: Repository): Branch -> seq<PullUnit> {
    (branch: Branch) => BranchDispatch(paths, repository, branch)
  }

  /** The units issued for one repository, given the outcome of listing its
      branches: a failed listing issues nothing for that repository. */
  function ListingDispatch(paths: seq<string>, repository: Repository, listing: Result<seq<Branch>>): seq<PullUnit> {
    match listing
    case Success(branches) => FlatMap(branches, BranchDispatcher(paths, repository))
    case Failure(_) => []
  }

  function RepositoryDispatcher(paths: seq<string>, cache: map<RepoId, seq<Branch>>,
                                remote: RepoId -> Result<seq<Branch>>): Repository -> seq<PullUnit>
  {
    (repository: Repository) => ListingDispatch(paths, repository, BranchListing(cache, remote, repository.id))
  }

  /** The units issued for `repositories`, each repository's branches coming
      from the branch cache `cache` or, on a miss, from `remote`. */
  function Dispatched(paths: seq<string>, repositories: seq<Repository>,
                      cache: map<RepoId, seq<Branch>>, remote: RepoId -> Result<seq<Branch>>): seq<PullUnit>
  {
    FlatMap(repositories, RepositoryDispatcher(paths, cache, remote))
  }

  /** Dispatching one more repository appends that repository's units. */
  lemma DispatchedStep(paths: seq<string>, repositories: seq<Repository>, i: nat,
                       cache: map<RepoId, seq<Branch>>, remote: RepoId -> Result<seq<Branch>>)
    requires i < |repositories|
    ensures Dispatched(paths, repositories[..i + 1], cache, remote) ==
            Dispatched(paths, repositories[..i], cache, remote) +
            ListingDispatch(paths, repositories[i], BranchListing(cache, remote, repositories[i].id))
  {
    assert repositories[..i + 1][..i] == repositories[..i];
  }

  /** Some repository's branches cannot be listed: its task throws, and the
      exception reaches the run's catch once every task is done. */
  predicate SomeListingFails(cache: map<RepoId, seq<Branch>>, remote: RepoId -> Result<seq<Branch>>,
                             repositories: seq<Repository>)
  {
    exists i :: 0 <= i < |repositories| && BranchListing(cache, remote, repositories[i].id).Failure?
  }

  lemma SomeListingFailsStep(cache: map<RepoId, seq<Branch>>, remote: RepoId -> Result<seq<Branch>>,
                             repositories: seq<Repository>, i: nat)
    requires i < |repositories|
    ensures SomeListingFails(cache, remote, repositories[..i + 1]) <==>
      SomeListingFails(cache, remote, repositories[..i]) || BranchListing(cache, remote, repositories[i].id).Failure?
  {
    var prefix := repositories[..i + 1];
    if SomeListingFails(cache, remote, prefix) {
      var k :| 0 <= k < |prefix| && BranchListing(cache, remote, prefix[k].id).Failure?;
      if k < i {
        assert repositories[..i][k] == prefix[k];
      }
    }
    if SomeListingFails(cache, remote, repositories[..i]) {
      var k :| 0 <= k < i && BranchListing(cache, remote, repositories[..i][k].id).Failure?;
      assert prefix[k] == repositories[..i][k];
    }
    if BranchListing(cache, remote, repositories[i].id).Failure? {
      assert prefix[i] == repositories[i];
    }
  }

  /** u is what the matcher issues for the j-th branch listed for the i-th
      repository. */
  predicate IsMatchedPair(paths: seq<string>, repositories: seq<Repository>,
                          cache: map<RepoId, seq<Branch>>, remote: RepoId -> Result<seq<Branch>>,
                          i: int, j: int, u: PullUnit)
  {
    && 0 <= i < |repositories|
    && var listing := BranchListing(cache, remote, repositories[i].id);
    && listing.Success? && 0 <= j < |listing.value|
    && var m := CheckRepo(Some(paths), repositories[i].name, listing.value[j].name);
    && m.matched
    && u == PullUnit(m.foundPath.value, listing.value[j].name, repositories[i].name)
  }

  /** A repository gets at most one pull per listed branch. */
  lemma ListingDispatchBounded(paths: seq<string>, repository: Repository, branches: seq<Branch>)
    ensures |ListingDispatch(paths, repository, Success(branches))| <= |branches|
  {
    forall branch ensures |BranchDispatcher(paths, repository)(branch)| <= 1 {
      BranchDispatchMatchesOnly(paths, repository, branch);
    }
    FlatMapAtMostOne(branches, BranchDispatcher(paths, repository));
  }

  /** Exactly the matched pairs are dispatched: a unit is issued if and only
      if it is the matcher's unit for some listed (repository, branch) pair. */
  lemma {:induction false} DispatchedMembers(paths: seq<string>, repositories: seq<Repository>,
                          cache: map<RepoId, seq<Branch>>, remote: RepoId -> Result<seq<Branch>>, u: PullUnit)
    ensures u in Dispatched(paths, repositories, cache, remote) <==>
      exists i, j :: IsMatchedPair(paths, repositories, cache, remote, i, j, u)
  {
    var f := RepositoryDispatcher(paths, cache, remote);
    FlatMapMembers(repositories, f, u);
    if u in Dispatched(paths, repositories, cache, remote) {
      var i :| 0 <= i < |repositories| && u in f(repositories[i]);
      var listing := BranchListing(cache, remote, repositories[i].id);
      FlatMapMembers(listing.value, BranchDispatcher(paths, repositories[i]), u);
      var j :| 0 <= j < |listing.value| && u in BranchDispatcher(paths, repositories[i])(listing.value[j]);
      assert IsMatchedPair(paths, repositories, cache, remote, i, j, u);
    }
    if i, j :| IsMatchedPair(paths, repositories, cache, remote, i, j, u) {
      var listing := BranchListing(cache, remote, repositories[i].id);
      FlatMapMembers(listing.value, BranchDispatcher(paths, repositories[i]), u);
      assert u in BranchDispatcher(paths, repositories[i])(listing.value[j]);
      assert u in f(repositories[i]);
    }
  }

  /** With no configured local paths nothing is ever pulled. */
  lemma {:induction false} NoPathsNoDispatch(repositories: seq<Repository>, cache: map<RepoId, seq<Branch>>, remote: RepoId -> Result<seq<Branch>>)
    ensures Dispatched([], repositories, cache, remote) == []
  {
    var d := Dispatched([], repositories, cache, remote);
    if d != [] {
      DispatchedMembers([], repositories, cache, remote, d[0]);
    }
  }

  /** A repository whose branches cannot be listed adds no pull, and every
      other repository is still processed: the run issues exactly what the
      repositories before it and after it issue. */
  lemma FailedListingAddsNothing(paths: seq<string>, repositories: seq<Repository>,
                                 cache: map<RepoId, seq<Branch>>, remote: RepoId -> Result<seq<Branch>>, i: nat)
    requires i < |repositories| && BranchListing(cache, remote, repositories[i].id).Failure?
    ensures Dispatched(paths, repositories, cache, remote) ==
            Dispatched(paths, repositories[..i], cache, remote) + Dispatched(paths, repositories[i + 1..], cache, remote)
  {
    var f := RepositoryDispatcher(paths, cache, remote);
    assert f(repositories[i]) == [];
    FlatMapSkipsEmpty(repositories, f, i);
  }

  /** The matcher's unit for a matched pair is what that branch's task issues. */
  lemma MatchedPairUnit(paths: seq<string>, repositories: seq<Repository>,
                        cache: map<RepoId, seq<Branch>>, remote: RepoId -> Result<seq<Branch>>,
                        i: nat, j: nat, u: PullUnit)
    requires IsMatchedPair(paths, repositories, cache, remote, i, j, u)
    ensures BranchDispatcher(paths, repositories[i])(BranchListing(cache, remote, repositories[i].id).value[j]) == [u]
  {
  }

  /** Each matched (repository, branch) pair is pulled exactly once: the run
      is what the repositories before it issue, then what the branches before
      it issue, then its one unit, then the rest, in order. */
  lemma {:induction false} MatchedPairDispatchedOnce(paths: seq<string>, repositories: seq<Repository>,
                                                     cache: map<RepoId, seq<Branch>>, remote: RepoId -> Result<seq<Branch>>,
                                                     i: nat, j: nat, u: PullUnit)
    requires IsMatchedPair(paths, repositories, cache, remote, i, j, u)
    ensures var f := RepositoryDispatcher(paths, cache, remote);
      var g := BranchDispatcher(paths, repositories[i]);
      var listing := BranchListing(cache, remote, repositories[i].id).value;
      FlatMap(repositories, f) ==
        FlatMap(repositories[..i], f) + (FlatMap(listing[..j], g) + [u] + FlatMap(listing[j + 1..], g)) +
        FlatMap(repositories[i + 1..], f)
  {
    var f := RepositoryDispatcher(paths, cache, remote);
    var g := BranchDispatcher(paths, repositories[i]);
    var listing := BranchListing(cache, remote, repositories[i].id).value;
    MatchedPairUnit(paths, repositories, cache, remote, i, j, u);
    FlatMapExactlyOnce(listing, g, j);
    assert f(repositories[i]) == FlatMap(listing, g);
    FlatMapExactlyOnce(repositories, f, i);
  }
}
