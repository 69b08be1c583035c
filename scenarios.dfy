/** Two end-to-end runs of the dispatch on concrete inputs. */
module Scenarios {
  import opened Outcomes
  import opened PathText
  import opened Matcher
  import opened Catalog
  import opened Dispatch

  lemma FooClonePath()
    ensures LastSegment("/home/u/foo") == "foo"
  {
    assert "/home/u/foo" == "/home/u" + ['/'] + "foo";
    LastSegmentOfChild("/home/u", '/', "foo");
  }

  /** One repository "foo" with branch "main" and a clone at /home/u/foo:
      exactly one pull, of main, in that clone. */
  lemma CloneNamedAfterRepositoryIsPulled()
    ensures Dispatched(["/home/u/foo"], [Repository(1, "foo")], map[], _ => Success([Branch("main")]))
         == [PullUnit("/home/u/foo", "main", "foo")]
  {
    var paths, repository, branch := ["/home/u/foo"], Repository(1, "foo"), Branch("main");
    assert "/home/u/foo" == "/home/u" + ['/'] + "foo";
    CloneNamedAfterRepositoryMatches("/home/u", '/', "foo", "foo", "main");
    assert BranchDispatch(paths, repository, branch) == [PullUnit("/home/u/foo", "main", "foo")];
    assert [branch][..0] == [] && [repository][..0] == [];
  }

  lemma FooCloneIsNotBarDev()
    ensures CheckRepo(Some(["/home/u/foo"]), "bar", "dev") == MatchResult(false, None)
  {
    FooClonePath();
    assert FoldChar('f') != FoldChar('b');
    assert !IsMatch("/home/u/foo", "bar", "dev");
    CheckRepoFirstMatchWins(Some(["/home/u/foo"]), "bar", "dev");
  }

  /** Repository "bar" with branch "dev" and no clone named "bar" or
      "bar-dev": nothing is pulled. */
  lemma UnmatchedPairIsNotPulled()
    ensures Dispatched(["/home/u/foo"], [Repository(2, "bar")], map[], _ => Success([Branch("dev")])) == []
  {
    var paths, repository, branch := ["/home/u/foo"], Repository(2, "bar"), Branch("dev");
    FooCloneIsNotBarDev();
    assert BranchDispatch(paths, repository, branch) == [];
    assert [branch][..0] == [] && [repository][..0] == [];
  }
}
