/** The records the hosting service returns, reduced to the fields the
    scripts read. Every response is an abstract input of the model. */
module Api {
  import opened Wrappers

  /** An item of `GET /repos/{owner}/{repo}/branches`. */
  datatype Branch = Branch(name: string)

  /** An item of `GET /repos/{owner}/{repo}/pulls`: the number, `head.sha`,
      and `head.repo.full_name` (`head.repo` is null when the fork is gone). */
  datatype PullRequest = PullRequest(number: nat, headSha: string, headRepoFullName: Option<string>)

  /** An item of `check_runs`; `details_url` may be null. */
  datatype CheckRun = CheckRun(id: int, name: string, detailsUrl: Option<string>)

  /** One answer of `GET /repos/{owner}/{repo}/actions/jobs/{job_id}`;
      `conclusion` is null while the job runs. */
  datatype JobSnapshot = JobSnapshot(status: string, conclusion: Option<string>)

  /** An item of a run's `artifacts`. */
  datatype Artifact = Artifact(id: int, name: string, archiveDownloadUrl: string)

  /** The parts of a `fetch` response that are checked: `response.ok` and
      whether `response.body` is present. */
  datatype DownloadResponse = DownloadResponse(ok: bool, hasBody: bool)

  /** An issue comment: its id, `user.login` (the user may be null) and its
      body (which may be null). */
  datatype Comment = Comment(id: int, userLogin: Option<string>, body: Option<string>)

  /** A write to a comment thread: `POST .../issues/{issue}/comments` or
      `PATCH .../issues/comments/{comment_id}`, each with the full body. */
  datatype CommentRequest = Post(issue: nat, body: string) | Patch(commentId: int, body: string)
}
