/** scripts/updateComments.ts: for every pull request entry of the manifest,
    in order, list the pull request's comments, compose the deploy-info
    message, and either post it as a new comment or overwrite the bot's
    existing deploy-info comment with it. A rejected listing (or a missing
    head repository) throws and ends the run. */
module UpdateComments {
  import opened Wrappers
  import opened Text
  import opened Api
  import opened Targets
  import opened Common
  import opened CommentStore

  /** The path segment updateComments.ts puts between the pages url and the dirname. */
  const PreviewSegment: string := "/preview/"
  /** The pieces of the HTML link lines around the values. */
  const LinkOpen: string := "- <a href=\""
  const EditorClose: string := "\" target=\"_blank\">:pencil: エディタ</a>"
  const StorybookClose: string := "\" target=\"_blank\">:book: Storybook</a>"

  // ------------------------------------------------------------ the message

  /** `deployInfoMessage`: the announcement, the editor and Storybook links,
      the commit, and the marker as the last line. */
  function DeployInfoMessage(pr: PullRequest, repoFullName: string, dirname: string): (body: string)
    ensures StartsWith(body, Announcement)
    ensures EndsWith(body, "\n" + CommentMarker)
    ensures Contains(body, PagesUrl + PreviewSegment + dirname + EditorPath)
    ensures Contains(body, PagesUrl + PreviewSegment + dirname + StorybookPath)
    ensures Contains(body, Slice(pr.headSha, 7))
  {
    var editor := PagesUrl + PreviewSegment + dirname + EditorPath;
    var storybook := PagesUrl + PreviewSegment + dirname + StorybookPath;
    var short := Slice(pr.headSha, 7);
    var commitLine := CommitOpen + short + (CommitMiddle + repoFullName + CommitPath + pr.headSha + ")");
    var lines := [
      Announcement,
      "",
      LinkOpen + editor + EditorClose,
      LinkOpen + storybook + StorybookClose,
      "",
      commitLine,
      CommentMarker
    ];
    var body := Join(lines, "\n");
    JoinStartsWithFirst(lines, "\n");
    JoinEndsWithLast(lines, "\n");
    ContainsSelf(editor);
    ContainsWithin(LinkOpen, editor, EditorClose, editor);
    JoinContainsPart(lines, "\n", 2, editor);
    ContainsSelf(storybook);
    ContainsWithin(LinkOpen, storybook, StorybookClose, storybook);
    JoinContainsPart(lines, "\n", 3, storybook);
    ContainsSelf(short);
    ContainsWithin(CommitOpen, short, CommitMiddle + repoFullName + CommitPath + pr.headSha + ")", short);
    JoinContainsPart(lines, "\n", 5, short);
    body
  }

  /** The message for pull request #7 at head commit `abcdef1234…`: links to
      `pr-7` and the short hash `abcdef1`, with the marker at the end. */
  lemma DeployInfoExample(repoFullName: string)
    ensures var pr := PullRequest(7, "abcdef1234567890abcdef1234567890abcdef12", Some(repoFullName));
            var body := DeployInfoMessage(pr, repoFullName, Dirname(PullRequestSource(pr)));
            && Contains(body, PagesUrl + PreviewSegment + "pr-7" + "/editor")
            && Contains(body, PagesUrl + PreviewSegment + "pr-7" + "/storybook")
            && Contains(body, "abcdef1")
            && EndsWith(body, "\n" + CommentMarker)
  {
    var pr := PullRequest(7, "abcdef1234567890abcdef1234567890abcdef12", Some(repoFullName));
    assert Dirname(PullRequestSource(pr)) == "pr-7";
    ShortHashExample(pr.headSha);
  }

  lemma ShortHashExample(sha: string)
    requires sha == "abcdef1234567890abcdef1234567890abcdef12"
    ensures Slice(sha, 7) == "abcdef1"
  {
    forall k | 0 <= k < 7 ensures sha[k] == "abcdef1"[k] { }
  }

  /** The message of a pull request entry whose head repository is known. */
  predicate HasMessage(e: DownloadData) {
    e.source.PullRequestSource? && e.source.pullRequest.headRepoFullName.Some?
  }

  function MessageOf(e: DownloadData): string
    requires HasMessage(e)
  {
    DeployInfoMessage(e.source.pullRequest, e.source.pullRequest.headRepoFullName.value, e.dirname)
  }

  // ------------------------------------------------------------ the matcher

  /** `maybePreviousDeployInfo`'s predicate: written by the bot (`slug[bot]`)
      and with a body that ends with the marker. */
  predicate EndsWithMarkerComment(c: Comment, slug: string) {
    c.userLogin == Some(BotLogin(slug)) && c.body.Some? && EndsWith(c.body.value, CommentMarker)
  }

  /** `comments.find(...)`: the position of the first bot comment that ends
      with the marker. */
  function FindMarkerAtEnd(thread: seq<Comment>, slug: string): (r: Option<nat>)
    ensures r.Some? ==> r.value < |thread| && EndsWithMarkerComment(thread[r.value], slug)
    ensures r.Some? ==> forall j :: 0 <= j < r.value ==> !EndsWithMarkerComment(thread[j], slug)
    ensures r.None? <==> forall j :: 0 <= j < |thread| ==> !EndsWithMarkerComment(thread[j], slug)
  {
    FindFirst(thread, c => EndsWithMarkerComment(c, slug))
  }

  /** The body this file composes is recognised by this file's matcher once
      the bot has written it. */
  lemma MessageIsRecognised(pr: PullRequest, repoFullName: string, dirname: string, slug: string, id: int)
    ensures EndsWithMarkerComment(Comment(id, Some(BotLogin(slug)), Some(DeployInfoMessage(pr, repoFullName, dirname))), slug)
  {
    var body := DeployInfoMessage(pr, repoFullName, dirname);
    EndsWithSuffix(body, "\n", CommentMarker);
  }

  /** The position the write goes to: the first deploy-info comment, or the
      end of the thread when there is none. */
  function Target(thread: seq<Comment>, slug: string): (k: nat)
    ensures k <= |thread|
    ensures k < |thread| <==> FindMarkerAtEnd(thread, slug).Some?
    ensures FindMarkerAtEnd(thread, slug).Some? ==> k == FindMarkerAtEnd(thread, slug).value
  {
    match FindMarkerAtEnd(thread, slug)
    case Some(k) => k
    case None => |thread|
  }

  /** `t` differs from `t0` at most at position `k`, and grows by one comment
      only when `k` is the end of `t0`. */
  predicate OnlyAt(t0: seq<Comment>, t: seq<Comment>, k: nat) {
    && |t0| <= |t| <= |t0| + 1
    && (k < |t0| ==> |t| == |t0|)
    && forall i :: 0 <= i < |t0| && i != k ==> t[i] == t0[i]
  }

  // --------------------------------------------------- one pull request's thread

  /** The thread after this file's POST or PATCH: the message appended as a
      new bot comment with the id `freshId`, or written over the whole body
      of the first deploy-info comment. */
  function ReconcileThread(thread: seq<Comment>, slug: string, body: string, freshId: int): (r: seq<Comment>)
    ensures OnlyAt(thread, r, Target(thread, slug))
    ensures Target(thread, slug) < |r| && r[Target(thread, slug)].body == Some(body)
    ensures FindMarkerAtEnd(thread, slug).None? ==> r[|thread|] == Comment(freshId, Some(BotLogin(slug)), Some(body))
    ensures FindMarkerAtEnd(thread, slug).Some? ==>
              var k := FindMarkerAtEnd(thread, slug).value;
              r[k].id == thread[k].id && r[k].userLogin == thread[k].userLogin
  {
    match FindMarkerAtEnd(thread, slug)
    case None => thread + [Comment(freshId, Some(BotLogin(slug)), Some(body))]
    case Some(k) => thread[k := thread[k].(body := Some(body))]
  }

  /** The request this file sends for the thread. */
  function RequestFor(thread: seq<Comment>, issue: nat, slug: string, body: string): (req: CommentRequest)
    ensures req.body == body
    ensures req.Post? <==> FindMarkerAtEnd(thread, slug).None?
    ensures req.Post? ==> req.issue == issue
    ensures req.Patch? ==> req.commentId == thread[FindMarkerAtEnd(thread, slug).value].id
  {
    match FindMarkerAtEnd(thread, slug)
    case None => Post(issue, body)
    case Some(k) => Patch(thread[k].id, body)
  }

  /** After the write, the matcher finds the written comment at the same
      position: the earlier comments are still not deploy-info comments,
      and the written one carries the marker at its end. */
  lemma ReconcileIsFound(thread: seq<Comment>, slug: string, body: string, freshId: int)
    requires EndsWith(body, CommentMarker)
    ensures var r := ReconcileThread(thread, slug, body, freshId);
            FindMarkerAtEnd(r, slug) == Some(Target(thread, slug))
  {
    var r := ReconcileThread(thread, slug, body, freshId);
    var k := Target(thread, slug);
    assert EndsWithMarkerComment(r[k], slug);
    forall j | 0 <= j < k ensures !EndsWithMarkerComment(r[j], slug) {
      assert r[j] == thread[j];
    }
    FindFirstIs(r, c => EndsWithMarkerComment(c, slug), k);
  }

  /** Reconciling a thread a second time overwrites the comment the first
      time wrote, whatever the new message: the later message wins, no second
      comment is added, and the second request is a PATCH of that comment.
      With the same message the second time changes nothing. */
  lemma ReconcileAgain(thread: seq<Comment>, slug: string, body1: string, body2: string, id1: int, id2: int)
    requires EndsWith(body1, CommentMarker)
    ensures var once := ReconcileThread(thread, slug, body1, id1);
            && ReconcileThread(once, slug, body2, id2) == ReconcileThread(thread, slug, body2, id1)
            && RequestFor(once, 0, slug, body2) == Patch(once[Target(thread, slug)].id, body2)
    ensures body1 == body2 ==>
              var once := ReconcileThread(thread, slug, body1, id1);
              ReconcileThread(once, slug, body2, id2) == once
  {
    ReconcileIsFound(thread, slug, body1, id1);
    var k := Target(thread, slug);
    var once := ReconcileThread(thread, slug, body1, id1);
    if FindMarkerAtEnd(thread, slug).None? {
      assert once[k := once[k].(body := Some(body2))]
          == thread + [Comment(id1, Some(BotLogin(slug)), Some(body2))];
    }
    assert once[k := once[k].(body := Some(body1))] == once;
  }

  /** The number of deploy-info comments in a thread. */
  function CountDeployInfo(thread: seq<Comment>, slug: string): nat {
    if thread == [] then 0
    else CountDeployInfo(thread[..|thread| - 1], slug)
         + (if EndsWithMarkerComment(thread[|thread| - 1], slug) then 1 else 0)
  }

  lemma {:induction false} CountZeroIffNone(thread: seq<Comment>, slug: string)
    ensures CountDeployInfo(thread, slug) == 0 <==> FindMarkerAtEnd(thread, slug).None?
  {
    if thread != [] {
      var init := thread[..|thread| - 1];
      CountZeroIffNone(init, slug);
      if FindMarkerAtEnd(init, slug).None? && !EndsWithMarkerComment(thread[|thread| - 1], slug) {
        forall j | 0 <= j < |thread| ensures !EndsWithMarkerComment(thread[j], slug) {
          if j < |init| { assert thread[j] == init[j]; }
        }
      }
      if FindMarkerAtEnd(init, slug).Some? {
        assert thread[FindMarkerAtEnd(init, slug).value] == init[FindMarkerAtEnd(init, slug).value];
      }
    }
  }

  /** Replacing a comment by one of the same kind keeps the count. */
  lemma {:induction false} CountUpdateAt(thread: seq<Comment>, slug: string, k: nat, c: Comment)
    requires k < |thread| && (EndsWithMarkerComment(c, slug) <==> EndsWithMarkerComment(thread[k], slug))
    ensures CountDeployInfo(thread[k := c], slug) == CountDeployInfo(thread, slug)
  {
    var t := thread[k := c];
    if k < |thread| - 1 {
      assert t[..|t| - 1] == thread[..|thread| - 1][k := c];
      CountUpdateAt(thread[..|thread| - 1], slug, k, c);
    } else {
      assert t[..|t| - 1] == thread[..|thread| - 1];
    }
  }

  /** Reconciling leaves exactly one deploy-info comment where there was
      none, and otherwise as many as before. */
  lemma ReconcileCount(thread: seq<Comment>, slug: string, body: string, freshId: int)
    requires EndsWith(body, CommentMarker)
    ensures var n := CountDeployInfo(thread, slug);
            CountDeployInfo(ReconcileThread(thread, slug, body, freshId), slug) == if n == 0 then 1 else n
  {
    var r := ReconcileThread(thread, slug, body, freshId);
    CountZeroIffNone(thread, slug);
    match FindMarkerAtEnd(thread, slug)
    case None =>
      assert r[..|r| - 1] == thread;
    case Some(k) =>
      CountUpdateAt(thread, slug, k, r[k]);
  }

  // ------------------------------------------------------------ the run

  /** The repository's comment threads and the id the next new comment gets. */
  datatype Store = Store(threads: map<nat, seq<Comment>>, nextId: int)

  /** One manifest entry: a branch is skipped, a thrown request stops the
      run at that pull request, otherwise one write is made. */
  datatype StepResult = Skip | Stop(issue: nat) | Done(store: Store, request: CommentRequest)

  /** The threads at the end, the writes in order, and the pull request the
      run stopped at, if it stopped. */
  datatype RunResult = RunResult(store: Store, requests: seq<CommentRequest>, stoppedAt: Option<nat>)

  predicate IsEntryFor(e: DownloadData, p: nat) {
    e.source.PullRequestSource? && e.source.pullRequest.number == p
  }

  /** One iteration of the `for` loop. */
  function Step(s: Store, e: DownloadData, slug: string): (r: StepResult)
    ensures r.Skip? <==> e.source.BranchSource?
    ensures r.Stop? <==> e.source.PullRequestSource? && (e.source.pullRequest.number !in s.threads || !HasMessage(e))
    ensures r.Stop? ==> r.issue == e.source.pullRequest.number
    ensures r.Done? ==> && r.store.threads.Keys == s.threads.Keys
                        && s.nextId <= r.store.nextId
                        && (forall p :: p in s.threads && !IsEntryFor(e, p) ==> r.store.threads[p] == s.threads[p])
    ensures r.Done? ==> && HasMessage(e)
                        && r.request.body == MessageOf(e)
                        && (r.request.Post? ==> r.request.issue == e.source.pullRequest.number)
  {
    match e.source
    case BranchSource(_) => Skip
    case PullRequestSource(pr) =>
      if pr.number !in s.threads then Stop(pr.number)   // the listing throws
      else if pr.headRepoFullName.None? then Stop(pr.number)   // `head.repo.full_name` on null throws
      else
        var thread := s.threads[pr.number];
        var body := MessageOf(e);
        var nextId := if FindMarkerAtEnd(thread, slug).None? then s.nextId + 1 else s.nextId;
        Done(Store(s.threads[pr.number := ReconcileThread(thread, slug, body, s.nextId)], nextId),
             RequestFor(thread, pr.number, slug, body))
  }

  /** Whether `p` has an entry in the manifest. */
  ghost predicate Mentions(m: seq<DownloadData>, p: nat) {
    exists e :: e in m && IsEntryFor(e, p)
  }

  /** The whole loop over the manifest. */
  function Apply(s: Store, m: seq<DownloadData>, slug: string): (r: RunResult)
    ensures r.store.threads.Keys == s.threads.Keys
    ensures s.nextId <= r.store.nextId
    decreases |m|
  {
    if m == [] then RunResult(s, [], None)
    else
      match Step(s, m[0], slug)
      case Skip => Apply(s, m[1..], slug)
      case Stop(issue) => RunResult(s, [], Some(issue))
      case Done(next, request) =>
        var rest := Apply(next, m[1..], slug);
        RunResult(rest.store, [request] + rest.requests, rest.stoppedAt)
  }

  /** The threads of pull requests the manifest does not name are left as
      they were. */
  lemma {:induction false} ApplyLeavesOthers(s: Store, m: seq<DownloadData>, slug: string, p: nat)
    requires p in s.threads && !Mentions(m, p)
    ensures Apply(s, m, slug).store.threads[p] == s.threads[p]
    decreases |m|
  {
    if m != [] {
      assert m[0] in m && forall e :: e in m[1..] ==> e in m;
      match Step(s, m[0], slug)
      case Skip => ApplyLeavesOthers(s, m[1..], slug, p);
      case Stop(_) =>
      case Done(next, _) => ApplyLeavesOthers(next, m[1..], slug, p);
    }
  }

  /** `Apply` unfolded once, for the loop below. */
  lemma ApplyFirst(s: Store, m: seq<DownloadData>, slug: string)
    requires m != []
    ensures Step(s, m[0], slug).Skip? ==> Apply(s, m, slug) == Apply(s, m[1..], slug)
    ensures Step(s, m[0], slug).Stop? ==> Apply(s, m, slug) == RunResult(s, [], Some(Step(s, m[0], slug).issue))
    ensures Step(s, m[0], slug).Done? ==>
              var rest := Apply(Step(s, m[0], slug).store, m[1..], slug);
              Apply(s, m, slug) == RunResult(rest.store, [Step(s, m[0], slug).request] + rest.requests, rest.stoppedAt)
  {
  }

  // ------------------------------------------------------- the imperative loop

  /** The POST or the PATCH for one pull request whose thread was listed. */
  method WriteDeployInfo(service: CommentService, issue: nat, thread: seq<Comment>, body: string, slug: string)
    returns (request: CommentRequest)
    requires service.Valid() && service.actor == BotLogin(slug)
    requires issue in service.threads && service.threads[issue] == thread
    modifies service
    ensures service.Valid()
    ensures request == RequestFor(thread, issue, slug, body)
    ensures service.threads == old(service.threads)[issue := ReconcileThread(thread, slug, body, old(service.nextId))]
    ensures service.nextId == if FindMarkerAtEnd(thread, slug).None? then old(service.nextId) + 1 else old(service.nextId)
  {
    var found := FindMarkerAtEnd(thread, slug);
    if found.None? {
      service.CreateComment(issue, body);
      request := Post(issue, body);
    } else {
      PatchByIdAt(service.threads, issue, found.value, body);
      service.UpdateComment(thread[found.value].id, body);
      request := Patch(thread[found.value].id, body);
    }
  }

  /** One iteration of the loop: skip a branch, list the thread, compose the
      message, write it. The result is the `Step` of the threads as they were,
      and on `Done` the service holds the new threads. */
  method ReconcileEntry(service: CommentService, e: DownloadData, slug: string) returns (r: StepResult)
    requires service.Valid() && service.actor == BotLogin(slug)
    modifies service
    ensures service.Valid()
    ensures r == Step(Store(old(service.threads), old(service.nextId)), e, slug)
    ensures r.Done? ==> r.store == Store(service.threads, service.nextId)
    ensures !r.Done? ==> service.threads == old(service.threads) && service.nextId == old(service.nextId)
  {
    if e.source.BranchSource? {
      return Skip;
    }
    var pr := e.source.pullRequest;
    var listing := service.ListComments(pr.number);
    if listing.Threw? || pr.headRepoFullName.None? {
      return Stop(pr.number);
    }
    var body := DeployInfoMessage(pr, pr.headRepoFullName.value, e.dirname);
    var request := WriteDeployInfo(service, pr.number, listing.value, body, slug);
    r := Done(Store(service.threads, service.nextId), request);
  }

  /** The script's loop against the comment service: the run is `Apply` of
      the threads as they were. */
  method ReconcileComments(service: CommentService, manifest: seq<DownloadData>, slug: string)
    returns (requests: seq<CommentRequest>, stoppedAt: Option<nat>)
    requires service.Valid() && service.actor == BotLogin(slug)
    modifies service
    ensures service.Valid()
    ensures Apply(Store(old(service.threads), old(service.nextId)), manifest, slug)
            == RunResult(Store(service.threads, service.nextId), requests, stoppedAt)
  {
    ghost var start := Store(service.threads, service.nextId);
    requests := [];
    stoppedAt := None;
    var i := 0;
    while i < |manifest|
      invariant 0 <= i <= |manifest|
      invariant service.Valid()
      invariant var rest := Apply(Store(service.threads, service.nextId), manifest[i..], slug);
                Apply(start, manifest, slug) == RunResult(rest.store, requests + rest.requests, rest.stoppedAt)
    {
      ghost var cur := Store(service.threads, service.nextId);
      assert manifest[i..][0] == manifest[i] && manifest[i..][1..] == manifest[i + 1..];
      ApplyFirst(cur, manifest[i..], slug);
      var step := ReconcileEntry(service, manifest[i], slug);
      if step.Stop? {
        stoppedAt := Some(step.issue);
        assert requests + [] == requests;
        return;
      }
      if step.Done? {
        ghost var rest := Apply(Store(service.threads, service.nextId), manifest[i + 1..], slug);
        assert requests + ([step.request] + rest.requests) == (requests + [step.request]) + rest.requests;
        requests := requests + [step.request];
      }
      i := i + 1;
    }
    assert requests + [] == requests;
  }
}
