/** Download targets and the manifest entries built from them. */
module Targets {
  import opened Api
  import opened Text

  /** `{ type: "branch", branch } | { type: "pullRequest", pullRequest }`. */
  datatype Source = BranchSource(branch: Branch) | PullRequestSource(pullRequest: PullRequest)

  /** One manifest entry `{ source, dirname }` of `downloads.json`. */
  datatype DownloadData = DownloadData(source: Source, dirname: string)

  const BranchDirPrefix: string := "branch-"
  const PullRequestDirPrefix: string := "pr-"

  /** The git ref whose check runs are listed: the branch name, or the pull
      request's head commit. */
  function RefOf(source: Source): (ref: string)
    ensures source.BranchSource? ==> ref == source.branch.name
    ensures source.PullRequestSource? ==> ref == source.pullRequest.headSha
  {
    match source
    case BranchSource(b) => b.name
    case PullRequestSource(pr) => pr.headSha
  }

  /** The directory (and preview path segment) of a target. */
  function Dirname(source: Source): (d: string)
    ensures source.BranchSource? <==> StartsWith(d, BranchDirPrefix)
    ensures source.PullRequestSource? <==> StartsWith(d, PullRequestDirPrefix)
  {
    match source
    case BranchSource(b) =>
      var d := BranchDirPrefix + b.name;
      assert d[0] != PullRequestDirPrefix[0];
      d
    case PullRequestSource(pr) =>
      var d := PullRequestDirPrefix + NatToString(pr.number);
      assert d[0] != BranchDirPrefix[0];
      d
  }

  /** Distinct targets of a kind get distinct directories: equal directories
      mean the same kind and the same branch name or pull request number. */
  lemma DirnameInjective(a: Source, b: Source)
    requires Dirname(a) == Dirname(b)
    ensures a.BranchSource? <==> b.BranchSource?
    ensures a.BranchSource? ==> a.branch == b.branch
    ensures a.PullRequestSource? ==> a.pullRequest.number == b.pullRequest.number
  {
    var d := Dirname(a);
    if a.BranchSource? && b.BranchSource? {
      assert a.branch.name == d[|BranchDirPrefix|..] == b.branch.name;
    } else if a.PullRequestSource? && b.PullRequestSource? {
      assert NatToString(a.pullRequest.number) == d[|PullRequestDirPrefix|..] == NatToString(b.pullRequest.number);
      NatToStringInjective(a.pullRequest.number, b.pullRequest.number);
    }
  }

  /** Branch `main`, and pull requests 42 and 7. */
  lemma DirnameExamples()
    ensures Dirname(BranchSource(Branch("main"))) == "branch-main"
    ensures forall sha, repo :: Dirname(PullRequestSource(PullRequest(42, sha, repo))) == "pr-42"
    ensures forall sha, repo :: Dirname(PullRequestSource(PullRequest(7, sha, repo))) == "pr-7"
  {
    assert NatToString(42) == NatToString(4) + [DigitChar(2)];
  }
}
