/** The local-path matcher (CheckRepo): decides whether a configured local
    directory holds a clone of a remote (repository, branch) pair, by the
    directory's own name. */
module Matcher {
  import opened Outcomes
  import opened PathText

  /** The source's bool return and its `out string foundPath`, together. */
  datatype MatchResult = MatchResult(matched: bool, foundPath: Option<string>)

  /** The directory name a per-branch clone is expected under:
      "{repoName}-{branchName}". */
  function BranchDirectoryName(repoName: string, branchName: string): string {
    repoName + "-" + branchName
  }

  /** The predicate handed to FirstOrDefault: the path's last segment equals
      the repository name, or the repository-dash-branch name, ignoring case. */
  predicate IsMatch(path: string, repoName: string, branchName: string) {
    var directoryName := LastSegment(path);
    EqualsIgnoreCase(directoryName, repoName) ||
    EqualsIgnoreCase(directoryName, BranchDirectoryName(repoName, branchName))
  }

  /** IsMatch for one (repository, branch) pair, as the function value
      handed to FirstOrDefault. */
  function PathMatcher(repoName: string, branchName: string): string -> bool {
    (path: string) => IsMatch(path, repoName, branchName)
  }

  /** The scan FirstOrDefault performs: the position of the first element
      that satisfies p, in list order, or None when none does. */
  function FirstIndex<T>(xs: seq<T>, p: T -> bool): (r: Option<nat>)
    ensures r.Some? ==> r.value < |xs| && p(xs[r.value])
    ensures r.Some? ==> forall j :: 0 <= j < r.value ==> !p(xs[j])
    ensures r.None? ==> forall j :: 0 <= j < |xs| ==> !p(xs[j])
  {
    if xs == [] then None
    else if p(xs[0]) then Some(0)
    else match FirstIndex(xs[1..], p)
      case None => None
      case Some(k) => Some(k + 1)
  }

  /** CheckRepo. A null or empty path list matches nothing; otherwise the
      first matching path, in list order, is the one reported (see
      CheckRepoFirstMatchWins). */
  function CheckRepo(repositoryPaths: Option<seq<string>>, repoName: string, branchName: string): (r: MatchResult)
    ensures r.matched <==> r.foundPath.Some?
    ensures r.matched ==> repositoryPaths.Some? && r.foundPath.value in repositoryPaths.value
    ensures repositoryPaths.None? || repositoryPaths.value == [] ==> r == MatchResult(false, None)
  {
    if repositoryPaths.Some? && |repositoryPaths.value| > 0 then
      match FirstIndex(repositoryPaths.value, PathMatcher(repoName, branchName))
      case Some(i) => MatchResult(true, Some(repositoryPaths.value[i]))
      case None => MatchResult(false, None)
    else
      MatchResult(false, None)
  }

  /** CheckRepo matches exactly when some configured path matches, and then
      reports the earliest such path: every path before it fails both name
      tests. */
  lemma CheckRepoFirstMatchWins(repositoryPaths: Option<seq<string>>, repoName: string, branchName: string)
    ensures var r := CheckRepo(repositoryPaths, repoName, branchName);
      && (r.matched <==>
            repositoryPaths.Some? &&
            exists i :: 0 <= i < |repositoryPaths.value| && IsMatch(repositoryPaths.value[i], repoName, branchName))
      && (r.matched ==>
            var i := FirstIndex(repositoryPaths.value, PathMatcher(repoName, branchName)).value;
            && i < |repositoryPaths.value|
            && r.foundPath == Some(repositoryPaths.value[i])
            && IsMatch(repositoryPaths.value[i], repoName, branchName)
            && forall j :: 0 <= j < i ==> !IsMatch(repositoryPaths.value[j], repoName, branchName))
  {
    if repositoryPaths.Some? && |repositoryPaths.value| > 0 {
      var paths, p := repositoryPaths.value, PathMatcher(repoName, branchName);
      match FirstIndex(paths, p)
      case Some(i) =>
        assert p(paths[i]);
      case None =>
        forall i | 0 <= i < |paths| ensures !IsMatch(paths[i], repoName, branchName) {
          assert !p(paths[i]);
        }
    }
  }

  /** First match wins: any position that satisfies p with none before it is
      the one the scan reports. */
  lemma FirstIndexIsUnique<T>(xs: seq<T>, p: T -> bool, i: nat)
    requires i < |xs| && p(xs[i])
    requires forall j :: 0 <= j < i ==> !p(xs[j])
    ensures FirstIndex(xs, p) == Some(i)
  {
  }

  /** The scan depends on nothing but which positions satisfy the predicate. */
  lemma FirstIndexDependsOnlyOnMatches<T>(xs: seq<T>, p: T -> bool, ys: seq<T>, q: T -> bool)
    requires |xs| == |ys|
    requires forall i :: 0 <= i < |xs| ==> p(xs[i]) == q(ys[i])
    ensures FirstIndex(xs, p) == FirstIndex(ys, q)
  {
    match (FirstIndex(xs, p), FirstIndex(ys, q))
    case (Some(i), _) => FirstIndexIsUnique(ys, q, i);
    case (None, Some(i')) => FirstIndexIsUnique(xs, p, i');
    case (None, None) =>
  }

  /** Whether one path matches does not depend on the letter case of the
      repository name or of the branch name. */
  lemma IsMatchIgnoresNameCase(path: string, repoName: string, branchName: string, repoName': string, branchName': string)
    requires EqualsIgnoreCase(repoName, repoName') && EqualsIgnoreCase(branchName, branchName')
    ensures IsMatch(path, repoName, branchName) == IsMatch(path, repoName', branchName')
  {
    var dir := LastSegment(path);
    EqualsIgnoreCaseAppend(repoName, repoName', "-", "-");
    EqualsIgnoreCaseAppend(repoName + "-", repoName' + "-", branchName, branchName');
    EqualsIgnoreCaseIsEquivalence(dir, repoName, repoName');
    EqualsIgnoreCaseIsEquivalence(dir, repoName', repoName);
    EqualsIgnoreCaseIsEquivalence(dir, BranchDirectoryName(repoName, branchName), BranchDirectoryName(repoName', branchName'));
    EqualsIgnoreCaseIsEquivalence(dir, BranchDirectoryName(repoName', branchName'), BranchDirectoryName(repoName, branchName));
  }

  /** Changing the letter case of the repository or branch name does not
      change what CheckRepo reports. */
  lemma CheckRepoIgnoresNameCase(repositoryPaths: Option<seq<string>>, repoName: string, branchName: string,
                                 repoName': string, branchName': string)
    requires EqualsIgnoreCase(repoName, repoName') && EqualsIgnoreCase(branchName, branchName')
    ensures CheckRepo(repositoryPaths, repoName, branchName) == CheckRepo(repositoryPaths, repoName', branchName')
  {
    if repositoryPaths.Some? {
      var paths := repositoryPaths.value;
      forall i | 0 <= i < |paths|
        ensures IsMatch(paths[i], repoName, branchName) == IsMatch(paths[i], repoName', branchName')
      {
        IsMatchIgnoresNameCase(paths[i], repoName, branchName, repoName', branchName');
      }
      FirstIndexDependsOnlyOnMatches(paths, PathMatcher(repoName, branchName), paths, PathMatcher(repoName', branchName'));
    }
  }

  /** Changing the letter case of the paths' directory names does not change
      whether CheckRepo matches, nor the position of the path it reports. */
  lemma CheckRepoIgnoresDirectoryCase(paths: seq<string>, paths': seq<string>, repoName: string, branchName: string)
    requires |paths| == |paths'|
    requires forall i :: 0 <= i < |paths| ==> EqualsIgnoreCase(LastSegment(paths[i]), LastSegment(paths'[i]))
    ensures CheckRepo(Some(paths), repoName, branchName).matched == CheckRepo(Some(paths'), repoName, branchName).matched
    ensures FirstIndex(paths, PathMatcher(repoName, branchName)) == FirstIndex(paths', PathMatcher(repoName, branchName))
  {
    forall i | 0 <= i < |paths|
      ensures IsMatch(paths[i], repoName, branchName) == IsMatch(paths'[i], repoName, branchName)
    {
      var d, d' := LastSegment(paths[i]), LastSegment(paths'[i]);
      EqualsIgnoreCaseIsEquivalence(d', d, repoName);
      EqualsIgnoreCaseIsEquivalence(d, d', repoName);
      EqualsIgnoreCaseIsEquivalence(d', d, BranchDirectoryName(repoName, branchName));
      EqualsIgnoreCaseIsEquivalence(d, d', BranchDirectoryName(repoName, branchName));
    }
    FirstIndexDependsOnlyOnMatches(paths, PathMatcher(repoName, branchName), paths', PathMatcher(repoName, branchName));
  }

  /** A clone named after the repository, under any parent directory, is
      found whatever the letter case of the name. */
  lemma CloneNamedAfterRepositoryMatches(parent: string, sep: char, directoryName: string, repoName: string, branchName: string)
    requires IsSeparator(sep)
    requires forall i :: 0 <= i < |directoryName| ==> !IsSeparator(directoryName[i])
    requires EqualsIgnoreCase(directoryName, repoName)
    ensures CheckRepo(Some([parent + [sep] + directoryName]), repoName, branchName)
         == MatchResult(true, Some(parent + [sep] + directoryName))
  {
    LastSegmentOfChild(parent, sep, directoryName);
  }
}
