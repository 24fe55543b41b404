/** scripts/collect.ts: list the targets, and for each one find its build
    check, wait for the job, locate and unpack the artifact, maintain the pull
    request's deploy-info comment, and keep the targets that got that far as
    the manifest. Every request is an answer drawn from a `World`. */
module Collect {
  import opened Wrappers
  import opened Text
  import opened Api
  import opened Targets
  import opened RunId
  import opened Polling
  import opened Common

  /** The check run whose job builds the preview (collect.ts's own setting). */
  const BuildCheckName: string := "update_preview"
  /** The artifact the build uploads. */
  const ArtifactName: string := "preview-pages"
  const MainBranch: string := "main"
  const ProjectBranchPrefix: string := "project-"
  /** The path segment collect.ts puts between the pages url and the dirname. */
  const PreviewSegment: string := "/vv-preview-demo-bot/"

  // ---------------------------------------------------------------- targets

  predicate IsTrackedBranch(name: string) {
    StartsWith(name, ProjectBranchPrefix) || name == MainBranch
  }

  /** `branches.filter(...)`. */
  function FilterBranches(branches: seq<Branch>): (kept: seq<Branch>)
    ensures |kept| <= |branches|
    ensures forall b :: b in kept <==> b in branches && IsTrackedBranch(b.name)
  {
    if branches == [] then []
    else if IsTrackedBranch(branches[0].name) then [branches[0]] + FilterBranches(branches[1..])
    else FilterBranches(branches[1..])
  }

  /** Filtering keeps the listing order: it distributes over concatenation. */
  lemma {:induction false} FilterBranchesAppend(a: seq<Branch>, b: seq<Branch>)
    ensures FilterBranches(a + b) == FilterBranches(a) + FilterBranches(b)
  {
    if a != [] {
      assert (a + b)[0] == a[0];
      assert (a + b)[1..] == a[1..] + b;
      FilterBranchesAppend(a[1..], b);
      if IsTrackedBranch(a[0].name) {
        assert FilterBranches(a + b) == [a[0]] + (FilterBranches(a[1..]) + FilterBranches(b));
        assert FilterBranches(a) == [a[0]] + FilterBranches(a[1..]);
        assert [a[0]] + (FilterBranches(a[1..]) + FilterBranches(b)) == ([a[0]] + FilterBranches(a[1..])) + FilterBranches(b);
      } else {
        assert FilterBranches(a + b) == FilterBranches(a[1..]) + FilterBranches(b);
      }
    } else {
      assert a + b == b;
    }
  }

  /** The kept branches, then every open pull request, as targets. */
  function DownloadTargets(branches: seq<Branch>, pullRequests: seq<PullRequest>): (ts: seq<Source>)
    ensures |ts| == |FilterBranches(branches)| + |pullRequests|
    ensures forall i :: 0 <= i < |FilterBranches(branches)| ==> ts[i] == BranchSource(FilterBranches(branches)[i])
    ensures forall j :: 0 <= j < |pullRequests| ==>
              ts[|FilterBranches(branches)| + j] == PullRequestSource(pullRequests[j])
  {
    var kept := FilterBranches(branches);
    seq(|kept|, i requires 0 <= i < |kept| => BranchSource(kept[i]))
      + seq(|pullRequests|, j requires 0 <= j < |pullRequests| => PullRequestSource(pullRequests[j]))
  }

  // ---------------------------------------------------------- the requests

  /** The answers the hosting service and the filesystem give, as functions
      of what each request asks for. */
  datatype World = World(
    checkRunsFor: string -> Reply<seq<CheckRun>>,      // GET .../commits/{ref}/check-runs
    jobRead: (int, nat) -> Reply<JobSnapshot>,         // the n-th GET .../actions/jobs/{job_id}
    artifactsOf: nat -> Reply<seq<Artifact>>,          // GET .../actions/runs/{run_id}/artifacts
    archiveUrlOf: int -> Reply<string>,                // GET .../artifacts/{artifact_id}/zip, its `url`
    fetch: string -> Reply<DownloadResponse>,          // fetch(innerDownloadUrl)
    extractionSucceeds: string -> bool,                // mkdir + unzip into the dirname; false: throws
    commentsOf: nat -> Reply<seq<Comment>>,            // GET .../issues/{issue_number}/comments
    commentWriteAccepted: CommentRequest -> bool)      // the POST or PATCH; false: throws

  /** The answers of the (up to) 20 status reads of one job. */
  function JobAnswers(w: World, jobId: int): (answers: seq<Reply<JobSnapshot>>)
    ensures |answers| == MaxPollAttempts
  {
    seq(MaxPollAttempts, i requires 0 <= i => w.jobRead(jobId, i))
  }

  predicate IsBuildCheck(c: CheckRun) {
    c.name == BuildCheckName
  }

  predicate IsPreviewArtifact(a: Artifact) {
    a.name == ArtifactName
  }

  /** `comment.user && comment.user.login === slug[bot] && comment.body?.startsWith(marker)`. */
  predicate StartsWithMarkerComment(c: Comment, slug: string) {
    c.userLogin == Some(BotLogin(slug)) && c.body.Some? && StartsWith(c.body.value, CommentMarker)
  }

  /** `comments.find(...)`: the position of the first bot comment that
      starts with the marker. */
  function FindMarkerAtStart(comments: seq<Comment>, slug: string): (r: Option<nat>)
    ensures r.Some? ==> r.value < |comments| && StartsWithMarkerComment(comments[r.value], slug)
    ensures r.Some? ==> forall j :: 0 <= j < r.value ==> !StartsWithMarkerComment(comments[j], slug)
    ensures r.None? <==> forall j :: 0 <= j < |comments| ==> !StartsWithMarkerComment(comments[j], slug)
  {
    FindFirst(comments, c => StartsWithMarkerComment(c, slug))
  }

  /** The markdown openings of collect.ts's two link lines. */
  const EditorLinkOpen: string := "- [:pencil: エディタ]("
  const StorybookLinkOpen: string := "- [:book: Storybook]("

  /** The lines of the deploy-info message collect.ts composes: the marker,
      an announcement, the editor and Storybook links, and the commit. */
  function DeployInfoLines(pr: PullRequest, repoFullName: string, dirname: string): (lines: seq<string>)
    ensures |lines| == 7 && lines[0] == CommentMarker
  {
    [
      CommentMarker,
      Announcement,
      "",
      EditorLinkOpen + (PagesUrl + PreviewSegment + dirname + EditorPath) + ")",
      StorybookLinkOpen + (PagesUrl + PreviewSegment + dirname + StorybookPath) + ")",
      "",
      CommitOpen + Slice(pr.headSha, 7) + (CommitMiddle + repoFullName + CommitPath + pr.headSha + ")")
    ]
  }

  /** The deploy-info message: its lines joined by newlines. */
  function DeployInfoMessage(pr: PullRequest, repoFullName: string, dirname: string): (body: string)
    ensures StartsWith(body, CommentMarker + "\n")
    ensures Contains(body, Slice(pr.headSha, 7))
    ensures Contains(body, PagesUrl + PreviewSegment + dirname + EditorPath)
    ensures Contains(body, PagesUrl + PreviewSegment + dirname + StorybookPath)
    ensures EndsWith(body, ")")
  {
    DeployInfoHeadAndTail(pr, repoFullName, dirname);
    DeployInfoLinks(pr, repoFullName, dirname);
    DeployInfoCommit(pr, repoFullName, dirname);
    Join(DeployInfoLines(pr, repoFullName, dirname), "\n")
  }

  /** The message starts with the marker line and ends with the commit link's `)`. */
  lemma DeployInfoHeadAndTail(pr: PullRequest, repoFullName: string, dirname: string)
    ensures var body := Join(DeployInfoLines(pr, repoFullName, dirname), "\n");
            StartsWith(body, CommentMarker + "\n") && EndsWith(body, ")")
  {
    var lines := DeployInfoLines(pr, repoFullName, dirname);
    var body := Join(lines, "\n");
    assert body == CommentMarker + "\n" + Join(lines[1..], "\n");
    assert (CommentMarker + "\n" + Join(lines[1..], "\n"))[..|CommentMarker + "\n"|] == CommentMarker + "\n";
    JoinEndsWithLast(lines, "\n");
    EndsWithTrans(body, lines[6], ")");
  }

  /** The message holds the editor and the Storybook url. */
  lemma DeployInfoLinks(pr: PullRequest, repoFullName: string, dirname: string)
    ensures var body := Join(DeployInfoLines(pr, repoFullName, dirname), "\n");
            && Contains(body, PagesUrl + PreviewSegment + dirname + EditorPath)
            && Contains(body, PagesUrl + PreviewSegment + dirname + StorybookPath)
  {
    var lines := DeployInfoLines(pr, repoFullName, dirname);
    var editor := PagesUrl + PreviewSegment + dirname + EditorPath;
    var storybook := PagesUrl + PreviewSegment + dirname + StorybookPath;
    ContainsSelf(editor);
    ContainsWithin(EditorLinkOpen, editor, ")", editor);
    assert lines[3] == EditorLinkOpen + editor + ")";
    JoinContainsPart(lines, "\n", 3, editor);
    ContainsSelf(storybook);
    ContainsWithin(StorybookLinkOpen, storybook, ")", storybook);
    assert lines[4] == StorybookLinkOpen + storybook + ")";
    JoinContainsPart(lines, "\n", 4, storybook);
  }

  /** The message holds the short commit hash. */
  lemma DeployInfoCommit(pr: PullRequest, repoFullName: string, dirname: string)
    ensures Contains(Join(DeployInfoLines(pr, repoFullName, dirname), "\n"), Slice(pr.headSha, 7))
  {
    var lines := DeployInfoLines(pr, repoFullName, dirname);
    var short := Slice(pr.headSha, 7);
    var rest := CommitMiddle + repoFullName + CommitPath + pr.headSha + ")";
    ContainsSelf(short);
    ContainsWithin(CommitOpen, short, rest, short);
    assert lines[6] == CommitOpen + short + rest;
    JoinContainsPart(lines, "\n", 6, short);
  }

  // ------------------------------------------------------ one target's chain

  /** Why a target was skipped; each is an early `return` with a log line. */
  datatype SkipReason =
    | NoBuildCheck | NoDetailsUrl | NoRunId
    | JobDidNotComplete | BuildDidNotSucceed
    | NoArtifact | NoDownloadUrl | DownloadFailed | NoResponseBody

  /** `undefined` after an early return, `undefined` after a caught
      exception, or `{ source, dirname }`. */
  datatype TargetOutcome = Skipped(reason: SkipReason) | Failed | Ok(data: DownloadData)

  /** A target's outcome, with the number of status reads made and the comment
      write issued, if any. */
  datatype TargetRun = TargetRun(outcome: TargetOutcome, statusReads: nat, comment: Option<CommentRequest>)

  /** The chain for one target, from the check-run listing to the comment. */
  function Pipeline(source: Source, w: World, slug: string): (run: TargetRun)
    ensures run.statusReads <= MaxPollAttempts
    ensures run.outcome.Ok? ==> run.outcome.data == DownloadData(source, Dirname(source))
    ensures source.BranchSource? ==> run.comment.None?
  {
    match w.checkRunsFor(RefOf(source))
    case Threw => TargetRun(Failed, 0, None)
    case Answered(checkRuns) =>
      match FindFirst(checkRuns, IsBuildCheck)
      case None => TargetRun(Skipped(NoBuildCheck), 0, None)
      case Some(ci) =>
        var check := checkRuns[ci];
        if check.detailsUrl.None? || check.detailsUrl.value == "" then TargetRun(Skipped(NoDetailsUrl), 0, None)
        else match ExtractRunId(check.detailsUrl.value)
          case None => TargetRun(Skipped(NoRunId), 0, None)
          case Some(runId) =>
            match PollSpec(JobAnswers(w, check.id))
            case ReadThrew(n) => TargetRun(Failed, n, None)
            case TimedOut(n) => TargetRun(Skipped(JobDidNotComplete), n, None)
            case Finished(success, n) =>
              if !success then TargetRun(Skipped(BuildDidNotSucceed), n, None)
              else AfterBuild(source, w, slug, ParseDigits(runId), n)
  }

  /** The chain after a successful build: artifact, download, extraction, comment. */
  function AfterBuild(source: Source, w: World, slug: string, runId: nat, n: nat): (run: TargetRun)
    ensures run.statusReads == n
    ensures run.outcome.Ok? ==> run.outcome.data == DownloadData(source, Dirname(source))
    ensures source.BranchSource? ==> run.comment.None?
  {
    match w.artifactsOf(runId)
    case Threw => TargetRun(Failed, n, None)
    case Answered(artifacts) =>
      match FindFirst(artifacts, IsPreviewArtifact)
      case None => TargetRun(Skipped(NoArtifact), n, None)
      case Some(ai) =>
        var artifact := artifacts[ai];
        if artifact.archiveDownloadUrl == "" then TargetRun(Skipped(NoDownloadUrl), n, None)
        else match w.archiveUrlOf(artifact.id)
          case Threw => TargetRun(Failed, n, None)
          case Answered(innerUrl) =>
            match w.fetch(innerUrl)
            case Threw => TargetRun(Failed, n, None)
            case Answered(response) =>
              if !response.ok then TargetRun(Skipped(DownloadFailed), n, None)
              else if !response.hasBody then TargetRun(Skipped(NoResponseBody), n, None)
              else if !w.extractionSucceeds(Dirname(source)) then TargetRun(Failed, n, None)
              else CommentStep(source, w, slug, n)
  }

  /** The write for a pull request's thread: a POST of the body to the pull
      request when no bot comment starts with the marker, otherwise a PATCH
      of the first such comment. */
  function DeployInfoRequest(pr: PullRequest, comments: seq<Comment>, slug: string, body: string): (r: CommentRequest)
    ensures r.body == body
    ensures r.Post? <==> FindMarkerAtStart(comments, slug).None?
    ensures r.Post? ==> r.issue == pr.number
    ensures r.Patch? ==> r.commentId == comments[FindMarkerAtStart(comments, slug).value].id
  {
    match FindMarkerAtStart(comments, slug)
    case None => Post(pr.number, body)
    case Some(k) => Patch(comments[k].id, body)
  }

  /** For a pull request, post or patch the deploy-info comment; a branch needs none. */
  function CommentStep(source: Source, w: World, slug: string, n: nat): (run: TargetRun)
    ensures run.statusReads == n
    ensures run.outcome.Ok? ==> run.outcome.data == DownloadData(source, Dirname(source))
    ensures source.BranchSource? ==> run == TargetRun(Ok(DownloadData(source, Dirname(source))), n, None)
  {
    var dirname := Dirname(source);
    match source
    case BranchSource(_) => TargetRun(Ok(DownloadData(source, dirname)), n, None)
    case PullRequestSource(pr) =>
      match w.commentsOf(pr.number)
      case Threw => TargetRun(Failed, n, None)
      case Answered(comments) =>
        if pr.headRepoFullName.None? then TargetRun(Failed, n, None)  // `head.repo.full_name` on null throws
        else
          var body := DeployInfoMessage(pr, pr.headRepoFullName.value, dirname);
          var request := DeployInfoRequest(pr, comments, slug, body);
          if w.commentWriteAccepted(request) then TargetRun(Ok(DownloadData(source, dirname)), n, Some(request))
          else TargetRun(Failed, n, Some(request))
  }

  /** The chain, step by step with early returns, as collect.ts runs it. */
  method ProcessTarget(source: Source, w: World, slug: string) returns (run: TargetRun)
    ensures run == Pipeline(source, w, slug)
  {
    var listing := w.checkRunsFor(RefOf(source));
    if listing.Threw? {
      return TargetRun(Failed, 0, None);
    }
    var checkRuns := listing.value;
    var found := FindFirst(checkRuns, IsBuildCheck);
    if found.None? {
      return TargetRun(Skipped(NoBuildCheck), 0, None);
    }
    var check := checkRuns[found.value];
    if check.detailsUrl.None? || check.detailsUrl.value == "" {
      return TargetRun(Skipped(NoDetailsUrl), 0, None);
    }
    var runId := ExtractRunId(check.detailsUrl.value);
    if runId.None? {
      return TargetRun(Skipped(NoRunId), 0, None);
    }
    var poll := Poll(JobAnswers(w, check.id));
    var n := poll.readCount;
    if poll.ReadThrew? {
      return TargetRun(Failed, n, None);
    }
    if poll.TimedOut? {
      return TargetRun(Skipped(JobDidNotComplete), n, None);
    }
    if !poll.success {
      return TargetRun(Skipped(BuildDidNotSucceed), n, None);
    }
    var artifactListing := w.artifactsOf(ParseDigits(runId.value));
    if artifactListing.Threw? {
      return TargetRun(Failed, n, None);
    }
    var artifacts := artifactListing.value;
    var foundArtifact := FindFirst(artifacts, IsPreviewArtifact);
    if foundArtifact.None? {
      return TargetRun(Skipped(NoArtifact), n, None);
    }
    var artifact := artifacts[foundArtifact.value];
    if artifact.archiveDownloadUrl == "" {
      return TargetRun(Skipped(NoDownloadUrl), n, None);
    }
    var innerUrl := w.archiveUrlOf(artifact.id);
    if innerUrl.Threw? {
      return TargetRun(Failed, n, None);
    }
    var response := w.fetch(innerUrl.value);
    if response.Threw? {
      return TargetRun(Failed, n, None);
    }
    if !response.value.ok {
      return TargetRun(Skipped(DownloadFailed), n, None);
    }
    if !response.value.hasBody {
      return TargetRun(Skipped(NoResponseBody), n, None);
    }
    var dirname := Dirname(source);
    if !w.extractionSucceeds(dirname) {
      return TargetRun(Failed, n, None);
    }
    if source.PullRequestSource? {
      var pr := source.pullRequest;
      var comments := w.commentsOf(pr.number);
      if comments.Threw? {
        return TargetRun(Failed, n, None);
      }
      if pr.headRepoFullName.None? {
        return TargetRun(Failed, n, None);
      }
      var body := DeployInfoMessage(pr, pr.headRepoFullName.value, dirname);
      var previous := FindMarkerAtStart(comments.value, slug);
      var request;
      if previous.None? {
        request := Post(pr.number, body);
      } else {
        request := Patch(comments.value[previous.value].id, body);
      }
      if !w.commentWriteAccepted(request) {
        return TargetRun(Failed, n, Some(request));
      }
      return TargetRun(Ok(DownloadData(source, dirname)), n, Some(request));
    }
    return TargetRun(Ok(DownloadData(source, dirname)), n, None);
  }

  // ------------------------------------------------------ properties of the chain

  /** Every step up to the unpacking succeeded: the first check run named as
      configured has a details url holding a run id, its job completed with
      `success` within the attempts, the first artifact named as configured
      has a download url, the download answered with a body, and the
      extraction went through. */
  predicate BuildDelivered(source: Source, w: World) {
    && w.checkRunsFor(RefOf(source)).Answered?
    && var checkRuns := w.checkRunsFor(RefOf(source)).value;
    var ci := FindFirst(checkRuns, IsBuildCheck);
    && ci.Some?
    && checkRuns[ci.value].detailsUrl.Some?
    && checkRuns[ci.value].detailsUrl.value != ""
    && var runId := ExtractRunId(checkRuns[ci.value].detailsUrl.value);
    && runId.Some?
    && PollSpec(JobAnswers(w, checkRuns[ci.value].id)).Finished?
    && PollSpec(JobAnswers(w, checkRuns[ci.value].id)).success
    && w.artifactsOf(ParseDigits(runId.value)).Answered?
    && var artifacts := w.artifactsOf(ParseDigits(runId.value)).value;
    var ai := FindFirst(artifacts, IsPreviewArtifact);
    && ai.Some?
    && artifacts[ai.value].archiveDownloadUrl != ""
    && w.archiveUrlOf(artifacts[ai.value].id).Answered?
    && w.fetch(w.archiveUrlOf(artifacts[ai.value].id).value).Answered?
    && w.fetch(w.archiveUrlOf(artifacts[ai.value].id).value).value == DownloadResponse(true, true)
    && w.extractionSucceeds(Dirname(source))
  }

  /** For a pull request, the thread was listed, the head repository is known
      and the deploy-info write was accepted; a branch needs nothing. */
  predicate CommentDelivered(source: Source, w: World, slug: string) {
    source.PullRequestSource? ==>
      var pr := source.pullRequest;
      && w.commentsOf(pr.number).Answered?
      && pr.headRepoFullName.Some?
      && w.commentWriteAccepted(DeployInfoRequest(pr, w.commentsOf(pr.number).value, slug,
                                                  DeployInfoMessage(pr, pr.headRepoFullName.value, Dirname(source))))
  }

  /** A target reaches the manifest only if every step succeeded. */
  lemma OkMeansEveryStepSucceeded(source: Source, w: World, slug: string)
    requires Pipeline(source, w, slug).outcome.Ok?
    ensures BuildDelivered(source, w)
    ensures CommentDelivered(source, w, slug)
    ensures source.PullRequestSource? ==>
              var run := Pipeline(source, w, slug);
              run.comment.Some? && w.commentWriteAccepted(run.comment.value)
  {
    var checkRuns := w.checkRunsFor(RefOf(source)).value;
    var check := checkRuns[FindFirst(checkRuns, IsBuildCheck).value];
    var runId := ExtractRunId(check.detailsUrl.value).value;
    assert AfterBuild(source, w, slug, ParseDigits(runId), PollSpec(JobAnswers(w, check.id)).readCount).outcome.Ok?;
  }

  /** Conversely, a target whose every step succeeds reaches the manifest
      under its own directory, and a pull request's write is the deploy-info
      request for its thread. */
  lemma EveryStepSucceededMeansOk(source: Source, w: World, slug: string)
    requires BuildDelivered(source, w)
    requires CommentDelivered(source, w, slug)
    ensures Pipeline(source, w, slug).outcome == Ok(DownloadData(source, Dirname(source)))
    ensures source.PullRequestSource? ==>
              var pr := source.pullRequest;
              Pipeline(source, w, slug).comment
                == Some(DeployInfoRequest(pr, w.commentsOf(pr.number).value, slug,
                                          DeployInfoMessage(pr, pr.headRepoFullName.value, Dirname(source))))
  {
    var checkRuns := w.checkRunsFor(RefOf(source)).value;
    var check := checkRuns[FindFirst(checkRuns, IsBuildCheck).value];
    var runId := ParseDigits(ExtractRunId(check.detailsUrl.value).value);
    var n := PollSpec(JobAnswers(w, check.id)).readCount;
    assert Pipeline(source, w, slug) == AfterBuild(source, w, slug, runId, n);
    DeliveredBuildReachesComment(source, w, slug, runId, n);
  }

  /** A world in which every request succeeds: one build check whose job has
      completed with `success`, one preview artifact, a download with a body,
      and an empty comment thread. */
  const DeliveringWorld: World := World(
    ref => Answered([CheckRun(1, BuildCheckName, Some("/runs/42/job/9"))]),
    (jobId, attempt) => Answered(JobSnapshot(CompletedStatus, Some(SuccessConclusion))),
    runId => Answered([Artifact(5, ArtifactName, "artifact.zip")]),
    artifactId => Answered("inner.zip"),
    url => Answered(DownloadResponse(true, true)),
    dirname => true,
    issue => Answered([]),
    request => true)

  /** Pull request 7 in that world reaches the manifest as `pr-7`, and its
      first deploy-info comment is POSTed to it. */
  lemma PullRequestSevenIsCollected(repoFullName: string, slug: string)
    ensures var source := PullRequestSource(PullRequest(7, "abcdef1234567890abcdef1234567890abcdef12", Some(repoFullName)));
            var run := Pipeline(source, DeliveringWorld, slug);
            && run.outcome == Ok(DownloadData(source, "pr-7"))
            && run.comment.Some? && run.comment.value.Post? && run.comment.value.issue == 7
  {
    var pr := PullRequest(7, "abcdef1234567890abcdef1234567890abcdef12", Some(repoFullName));
    var source := PullRequestSource(pr);
    DeliveringWorldDelivers(source);
    DeliveringWorldPosts(pr, slug);
    EveryStepSucceededMeansOk(source, DeliveringWorld, slug);
    DirnameExamples();
  }

  /** In that world a pull request's write is accepted and is a POST to it. */
  lemma DeliveringWorldPosts(pr: PullRequest, slug: string)
    requires pr.headRepoFullName.Some?
    ensures CommentDelivered(PullRequestSource(pr), DeliveringWorld, slug)
    ensures var body := DeployInfoMessage(pr, pr.headRepoFullName.value, Dirname(PullRequestSource(pr)));
            DeployInfoRequest(pr, DeliveringWorld.commentsOf(pr.number).value, slug, body) == Post(pr.number, body)
  {
  }

  /** In that world every target's build is delivered. */
  lemma DeliveringWorldDelivers(source: Source)
    ensures BuildDelivered(source, DeliveringWorld)
  {
    RunIdExamples();
    PollStopsAtFirstCompleted(JobAnswers(DeliveringWorld, 1), 0);
  }

  /** The steps after the build, when each of them succeeds, lead to the comment. */
  lemma DeliveredBuildReachesComment(source: Source, w: World, slug: string, runId: nat, n: nat)
    requires w.artifactsOf(runId).Answered?
    requires var artifacts := w.artifactsOf(runId).value;
             var ai := FindFirst(artifacts, IsPreviewArtifact);
             && ai.Some?
             && artifacts[ai.value].archiveDownloadUrl != ""
             && w.archiveUrlOf(artifacts[ai.value].id).Answered?
             && w.fetch(w.archiveUrlOf(artifacts[ai.value].id).value) == Answered(DownloadResponse(true, true))
    requires w.extractionSucceeds(Dirname(source))
    ensures AfterBuild(source, w, slug, runId, n) == CommentStep(source, w, slug, n)
  {
  }

  /** A target without a check run of the configured name is skipped before
      any status read. */
  lemma NoBuildCheckSkips(source: Source, w: World, slug: string)
    requires w.checkRunsFor(RefOf(source)).Answered?
    requires forall c :: c in w.checkRunsFor(RefOf(source)).value ==> c.name != BuildCheckName
    ensures Pipeline(source, w, slug) == TargetRun(Skipped(NoBuildCheck), 0, None)
  {
  }

  /** A build check whose job never reports `completed` in the 20 reads, or
      completes without `success`, skips the target. */
  lemma UnfinishedOrFailedJobSkips(source: Source, w: World, slug: string)
    requires w.checkRunsFor(RefOf(source)).Answered?
    requires var checkRuns := w.checkRunsFor(RefOf(source)).value;
             var ci := FindFirst(checkRuns, IsBuildCheck);
             && ci.Some?
             && checkRuns[ci.value].detailsUrl.Some?
             && ExtractRunId(checkRuns[ci.value].detailsUrl.value).Some?
             && var o := PollSpec(JobAnswers(w, checkRuns[ci.value].id));
             o.TimedOut? || (o.Finished? && !o.success)
    ensures var checkRuns := w.checkRunsFor(RefOf(source)).value;
            var o := PollSpec(JobAnswers(w, checkRuns[FindFirst(checkRuns, IsBuildCheck).value].id));
            && (o.TimedOut? ==> Pipeline(source, w, slug).outcome == Skipped(JobDidNotComplete))
            && (o.Finished? && !o.success ==> Pipeline(source, w, slug).outcome == Skipped(BuildDidNotSucceed))
  {
    var checkRuns := w.checkRunsFor(RefOf(source)).value;
    var check := checkRuns[FindFirst(checkRuns, IsBuildCheck).value];
    assert check.detailsUrl.value != "" by {
      var q :| MatchStart(check.detailsUrl.value, q);
    }
  }

  /** The comment decision for a pull request that got through: a POST of the
      message when no earlier deploy-info comment by the bot exists, otherwise
      a PATCH of the first such comment; the message starts with the marker
      and names the short commit hash. */
  lemma PullRequestCommentDecision(pr: PullRequest, w: World, slug: string)
    requires Pipeline(PullRequestSource(pr), w, slug).outcome.Ok?
    ensures w.commentsOf(pr.number).Answered?
    ensures var comments := w.commentsOf(pr.number).value;
            var req := Pipeline(PullRequestSource(pr), w, slug).comment;
            && req.Some?
            && pr.headRepoFullName.Some?
            && req.value.body == DeployInfoMessage(pr, pr.headRepoFullName.value, Dirname(PullRequestSource(pr)))
            && StartsWith(req.value.body, CommentMarker + "\n")
            && Contains(req.value.body, Slice(pr.headSha, 7))
            && (req.value.Post? <==> forall c :: c in comments ==> !StartsWithMarkerComment(c, slug))
            && (req.value.Post? ==> req.value.issue == pr.number)
            && (req.value.Patch? ==> exists k :: 0 <= k < |comments|
                                      && comments[k].id == req.value.commentId
                                      && StartsWithMarkerComment(comments[k], slug)
                                      && forall j :: 0 <= j < k ==> !StartsWithMarkerComment(comments[j], slug))
  {
    var source := PullRequestSource(pr);
    OkMeansEveryStepSucceeded(source, w, slug);
    var checkRuns := w.checkRunsFor(RefOf(source)).value;
    var check := checkRuns[FindFirst(checkRuns, IsBuildCheck).value];
    var runId := ExtractRunId(check.detailsUrl.value).value;
    var n := PollSpec(JobAnswers(w, check.id)).readCount;
    assert Pipeline(source, w, slug) == CommentStep(source, w, slug, n);
    var comments := w.commentsOf(pr.number).value;
    var found := FindMarkerAtStart(comments, slug);
    if found.Some? {
      assert comments[found.value] in comments;
    } else {
      forall c | c in comments ensures !StartsWithMarkerComment(c, slug) {
        var j :| 0 <= j < |comments| && comments[j] == c;
      }
    }
  }

  /** The check runs are looked up for the target's own ref (the branch name,
      or the head commit of the pull request): answers for any other ref do
      not change the outcome. */
  lemma QueriesOnlyItsRef(source: Source, w: World, slug: string, other: string -> Reply<seq<CheckRun>>)
    requires other(RefOf(source)) == w.checkRunsFor(RefOf(source))
    ensures Pipeline(source, w.(checkRunsFor := other), slug) == Pipeline(source, w, slug)
  {
    var w' := w.(checkRunsFor := other);
    forall runId: nat, n: nat ensures AfterBuild(source, w', slug, runId, n) == AfterBuild(source, w, slug, runId, n) {
      AfterBuildIgnoresCheckRuns(source, w, slug, other, runId, n);
    }
    forall id: int ensures JobAnswers(w', id) == JobAnswers(w, id) {
    }
  }

  /** The steps after the build do not look at the check runs. */
  lemma AfterBuildIgnoresCheckRuns(source: Source, w: World, slug: string, other: string -> Reply<seq<CheckRun>>, runId: nat, n: nat)
    ensures AfterBuild(source, w.(checkRunsFor := other), slug, runId, n) == AfterBuild(source, w, slug, runId, n)
  {
    assert CommentStep(source, w.(checkRunsFor := other), slug, n) == CommentStep(source, w, slug, n);
  }

  // ------------------------------------------------------------ the manifest

  /** `downloadTargets.filter((t) => t !== undefined)`. */
  function Successes(runs: seq<TargetRun>): (manifest: seq<DownloadData>)
    ensures |manifest| <= |runs|
    ensures forall d :: d in manifest <==> exists i :: 0 <= i < |runs| && runs[i].outcome == Ok(d)
  {
    if runs == [] then []
    else
      var rest := Successes(runs[1..]);
      assert forall i :: 1 <= i < |runs| ==> runs[i] == runs[1..][i - 1];
      if runs[0].outcome.Ok? then [runs[0].outcome.data] + rest else rest
  }

  /** The manifest keeps the target order: filtering distributes over concatenation. */
  lemma {:induction false} SuccessesAppend(a: seq<TargetRun>, b: seq<TargetRun>)
    ensures Successes(a + b) == Successes(a) + Successes(b)
  {
    if a != [] {
      assert (a + b)[0] == a[0];
      assert (a + b)[1..] == a[1..] + b;
      SuccessesAppend(a[1..], b);
      if a[0].outcome.Ok? {
        assert Successes(a + b) == [a[0].outcome.data] + (Successes(a[1..]) + Successes(b));
        assert Successes(a) == [a[0].outcome.data] + Successes(a[1..]);
        assert [a[0].outcome.data] + (Successes(a[1..]) + Successes(b)) == ([a[0].outcome.data] + Successes(a[1..])) + Successes(b);
      } else {
        assert Successes(a + b) == Successes(a[1..]) + Successes(b);
      }
    } else {
      assert a + b == b;
    }
  }

  /** A target whose chain was skipped or threw drops out alone: the others
      keep their entries and their order. */
  lemma FailureDropsOnlyItself(before: seq<TargetRun>, run: TargetRun, after: seq<TargetRun>)
    requires !run.outcome.Ok?
    ensures Successes(before + [run] + after) == Successes(before) + Successes(after)
  {
    SuccessesAppend(before + [run], after);
    SuccessesAppend(before, [run]);
    assert Successes([run]) == [] by {
      assert [run][1..] == [];
    }
    assert Successes(before + [run]) == Successes(before) by {
      assert Successes(before) + [] == Successes(before);
    }
  }

  /** The targets run one after another and the successful ones form the
      manifest. Every manifest entry is a listed target under its own dirname. */
  method CollectDownloads(branches: seq<Branch>, pullRequests: seq<PullRequest>, w: World, slug: string)
    returns (runs: seq<TargetRun>, manifest: seq<DownloadData>)
    ensures var targets := DownloadTargets(branches, pullRequests);
            && |runs| == |targets|
            && (forall i :: 0 <= i < |runs| ==> runs[i] == Pipeline(targets[i], w, slug))
    ensures manifest == Successes(runs)
    ensures forall d :: d in manifest ==> d.source in DownloadTargets(branches, pullRequests) && d.dirname == Dirname(d.source)
  {
    var targets := DownloadTargets(branches, pullRequests);
    runs := [];
    for i := 0 to |targets|
      invariant |runs| == i
      invariant forall j :: 0 <= j < i ==> runs[j] == Pipeline(targets[j], w, slug)
    {
      var run := ProcessTarget(targets[i], w, slug);
      runs := runs + [run];
    }
    manifest := Successes(runs);
    forall d | d in manifest
      ensures d.source in targets && d.dirname == Dirname(d.source)
    {
      var i :| 0 <= i < |runs| && runs[i].outcome == Ok(d);
      assert d == DownloadData(targets[i], Dirname(targets[i]));
    }
  }
}
