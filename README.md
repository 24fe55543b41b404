# voicevox-preview-pages: a verified model of the collector and the comment reconciler

The repository publishes preview builds of the VOICEVOX editor. Two scripts hold its logic:

- `scripts/collect.ts` lists the tracked branches and the open pull requests of the guest repository. For each such *target* it:
  - finds the build check run;
  - extracts the workflow run id from the check's `details_url`;
  - waits up to 20 status reads for the job to complete;
  - picks the preview artifact, downloads it and unpacks it under the target's `dirname`;
  - for a pull request, posts or patches the bot's deploy-info comment.

  The targets that got all the way through form the manifest (`downloads.json`).
- `scripts/updateComments.ts` reads the manifest back. For each pull request entry, in order, it:
  - lists the pull request's comments;
  - composes the deploy-info message, with the marker on the last line;
  - posts the message as a new comment, or overwrites the first comment by the bot whose body ends with the marker.

The model keeps every decision these scripts make and replaces every request with an abstract input:

- In collect.ts, each response comes from a `World`, a record of total functions from what a request asks for to its answer. The requests that return data give a `Reply`: the decoded answer, or `Threw` for a rejected request. The extraction and the comment write return no data, so `extractionSucceeds` and `commentWriteAccepted` give a `bool`, where `false` means the step threw.
- In updateComments.ts, the comment threads live in a `CommentService` object. It is a map from pull request number to that PR's comments, plus the next free comment id. Its methods are the three endpoints the script calls (`ListComments`, `CreateComment`, `UpdateComment`).

Modules, one per file:

- `Wrappers`: `Option`, `Reply` and `FindFirst`, which models `Array.prototype.find`.
- `Text`: `startsWith`, `endsWith`, `slice`, `join`, number rendering and `parseInt`.
- `Api`: the response records.
- `Common`: the marker, the pages url and the bot login.
- `Targets`: targets, the ref to query, `dirname` and manifest entries.
- `RunId`: the run-id regular expression.
- `Polling`: the 20-read wait. It has a spec function `PollFrom` and the imperative loop `Poll`.
- `Collect`: one target's chain.
  - `Pipeline` is the specification.
  - `ProcessTarget` is the early-return method, proved equal to `Pipeline`.
  - `CollectDownloads` is the loop over the targets, followed by the manifest filter.
- `CommentStore`: the mutable comment service.
- `UpdateComments`: the message, the matcher, one thread's reconciliation, and the run specification `Apply`. It also holds the imperative loop `ReconcileComments`, proved equal to `Apply` of the threads it started from.
- `ReconcileRuns`: what a whole run does: order of the writes, threads left alone, at most one deploy-info comment, and a second run that changes nothing.
- `CommentFormats`: the two scripts' formats never recognise each other's comments.

Behaviour the code does not have, which the model therefore leaves out:

- **Marker.** There is a single marker string, not a list of current and historical markers.
- **No no-op branch.** A found deploy-info comment is always PATCHed, even when its body is already the message. So a second run makes one PATCH per pull request entry: each writes the same body and changes nothing.
- **Empty manifest.** An empty set of successful targets is not an error.

How failures travel:

- **Per-target failures.** A failure in collect.ts drops only that target: every target's chain is inside its own `try`.
- **Uncaught failures in updateComments.ts.** The loop has no `try`. A rejected listing, or a pull request whose head repository is gone (`head.repo` is null, so reading `full_name` throws), ends the whole run at that entry.

Further differences between the two scripts:

- **Check name.** collect.ts looks for the check named `update_preview`, its own constant. `scripts/common.ts` names it `build_preview_pages`, but collect.ts does not use that value.
- **Preview paths.** collect.ts links to `/vv-preview-demo-bot/<dirname>/…`, and updateComments.ts to `/preview/<dirname>/…`.
- **Marker position.** collect.ts puts the marker on the first line and matches it with `startsWith`. updateComments.ts puts it on the last line and matches it with `endsWith`.

  The lemma `CommentFormats.FormatsAreDisjoint` shows that neither script's matcher accepts the other's message. If both scripts ran on the same pull request, it would get two deploy-info comments. Nothing in the source tells whether both are meant to run, so this is stated as a property, not as a defect.

## Model

| member | source | states |
|---|---|---|
| Wrappers.FindFirst | scripts/collect.ts:145-147 | `find` returns the first element satisfying the predicate, or nothing when no element does |
| Text.Slice | scripts/collect.ts:273 | `slice(0, n)` is a prefix of length `min(n, |s|)` |
| Text.NatToString | scripts/collect.ts:244 | a number renders as a non-empty digit string without a leading zero, one digit exactly below 10 |
| Text.ParseNatToString | scripts/collect.ts:203 | `parseInt` of the rendered number is the number (round trip) |
| Text.NatToStringInjective | scripts/collect.ts:244 | distinct numbers render differently |
| Collect.FilterBranches | scripts/collect.ts:95-97 | a branch is kept iff its name is `main` or starts with `project-` |
| Collect.FilterBranchesAppend | scripts/collect.ts:95-97 | the filter distributes over concatenation, so the kept branches keep their listing order |
| Collect.DownloadTargets | scripts/collect.ts:106-123 | the targets are the kept branches followed by every open pull request, each in order |
| Targets.RefOf | scripts/collect.ts:139-142 | the check runs are listed for the branch's name, or for the pull request's head sha |
| Targets.Dirname | scripts/collect.ts:241-244 | a branch's directory starts with `branch-` and a pull request's with `pr-`, and each prefix occurs only for its own kind |
| Targets.DirnameInjective | scripts/collect.ts:241-244 | equal directories mean the same kind and the same branch name or pull request number |
| Targets.DirnameExamples | scripts/collect.ts:241-244 | branch `main` gives `branch-main`; pull requests 42 and 7 give `pr-42` and `pr-7` |
| RunId.ExtractRunId | scripts/collect.ts:156-157 | an id is found iff some digit is directly preceded by `/runs/`; it is then the non-empty maximal digit run at the leftmost such position |
| RunId.DigitRunEnd | scripts/collect.ts:156-157 | the greedy `[0-9]+`: every character up to the end is a digit, and the run stops at the end of the url or at a non-digit |
| RunId.RunIdExamples | scripts/collect.ts:156-163 | `/runs/42/job/9` yields `42`; a url without `/runs/` yields nothing |
| Polling.PollFrom | scripts/collect.ts:165-189 | the wait stops at the first read that throws or reports `completed`. It times out iff every read is pending, and then it has made every read. It makes at most 20 reads, and succeeds iff the completed read's conclusion is `success` |
| Polling.PollStopsAtFirstCompleted | scripts/collect.ts:168-189 | when the k-th read is the first completed one, the wait finishes after k+1 reads with that read's verdict |
| Polling.Poll | scripts/collect.ts:164-197 | the `done`/`success` loop with its `break` computes exactly the specified wait, with between 1 and 20 reads |
| Collect.JobAnswers | scripts/collect.ts:168-177 | one answer per possible status read, 20 in all |
| Collect.DeployInfoMessage | scripts/collect.ts:266-276 | the message starts with the marker line, contains the short head hash and both `/vv-preview-demo-bot/` links, and ends with the closing parenthesis of the commit link |
| Collect.Pipeline | scripts/collect.ts:130-312 | a target's chain makes at most 20 status reads. A success carries the target with its own dirname, and a branch never writes a comment |
| Collect.AfterBuild | scripts/collect.ts:198-309 | after the build succeeded, the chain keeps the read count and can only succeed with the target's own dirname |
| Collect.CommentStep | scripts/collect.ts:256-309 | a branch succeeds without a comment; a pull request succeeds only with its own manifest entry |
| Collect.ProcessTarget | scripts/collect.ts:124-313 | the early-return chain, with the polling loop, yields exactly `Pipeline`'s outcome |
| Collect.OkMeansEveryStepSucceeded | scripts/collect.ts:145-309 | a target enters the manifest only if every step passed: first matching check, details url, run id, completed `success` job, first matching artifact, its url, a download with a body, and the extraction (plus, for a pull request, the accepted comment write) |
| Collect.EveryStepSucceededMeansOk | scripts/collect.ts:145-309 | conversely, a target whose every step passes enters the manifest as `{ source, dirname }` with its own dirname. For a pull request this also needs a listed thread, a known head repository and an accepted write, and the write is the deploy-info POST or PATCH for that thread |
| Collect.PullRequestSevenIsCollected | scripts/collect.ts:130-309 | in a world where every request succeeds and the thread is empty, pull request 7 enters the manifest as `pr-7`, and its deploy-info comment is POSTed to pull request 7 |
| Collect.NoBuildCheckSkips | scripts/collect.ts:145-151 | without a check run of the configured name the target is skipped before any status read |
| Collect.UnfinishedOrFailedJobSkips | scripts/collect.ts:190-197 | a job that never completes in 20 reads skips the target as `JobDidNotComplete`; a job that completes without `success` skips it as `BuildDidNotSucceed` |
| Collect.DeployInfoRequest | scripts/collect.ts:277-306 | the write always carries the given body. It is a POST to the pull request iff `FindMarkerAtStart` finds no bot comment starting with the marker, and otherwise a PATCH of the id of the comment it found |
| Collect.PullRequestCommentDecision | scripts/collect.ts:256-306 | a pull request that got through has a head repository and sends exactly one write, whose body is the whole composed message. It is a POST to that pull request iff no bot comment starts with the marker, and otherwise a PATCH of the first such comment's id. The body starts with the marker and holds the short hash |
| Collect.FindMarkerAtStart | scripts/collect.ts:277-283 | the first comment by `slug[bot]` whose body starts with the marker, and none iff no comment is one |
| Collect.QueriesOnlyItsRef | scripts/collect.ts:132-144 | the check runs are looked up for the branch name or the pull request's head commit only; answers for other refs change nothing |
| Collect.Successes | scripts/collect.ts:315-317 | the manifest holds exactly the successful targets' entries, and no more entries than targets |
| Collect.SuccessesAppend | scripts/collect.ts:315-317 | the filter distributes over concatenation, so the manifest keeps target order |
| Collect.FailureDropsOnlyItself | scripts/collect.ts:310-317 | a skipped or failed target drops out alone; the others keep their entries and order |
| Collect.CollectDownloads | scripts/collect.ts:106-317 | every target runs its chain, and the manifest is the successful ones. Each manifest entry is a listed target under its own dirname |
| CommentStore.PatchThread | scripts/updateComments.ts:65-73 | a PATCH by id keeps the thread's length, ids and authors |
| CommentStore.PatchById | scripts/updateComments.ts:65-73 | a PATCH by id keeps the set of threads |
| CommentStore.PatchByIdAt | scripts/updateComments.ts:65-73 | with unique ids, patching a comment's id rewrites that one comment's body and nothing else |
| CommentStore.CommentService.ListComments | scripts/updateComments.ts:26-33 | the listing answers the whole thread, or throws for an unknown issue |
| CommentStore.CommentService.CreateComment | scripts/updateComments.ts:54-62 | a POST appends a comment by the bot with a fresh id and keeps ids unique |
| CommentStore.CommentService.UpdateComment | scripts/updateComments.ts:65-73 | a PATCH changes the body of the comment with that id and keeps ids unique |
| UpdateComments.DeployInfoMessage | scripts/updateComments.ts:34-44 | the message starts with the announcement and ends with a line break and the marker. It contains both `/preview/<dirname>/` links and the short head hash |
| UpdateComments.DeployInfoExample | scripts/updateComments.ts:34-44 | for pull request 7 at `abcdef1234…` the message links `pr-7`, shows `abcdef1` and ends with the marker |
| UpdateComments.ShortHashExample | scripts/updateComments.ts:40 | the short form of `abcdef1234…` is `abcdef1` |
| UpdateComments.FindMarkerAtEnd | scripts/updateComments.ts:45-51 | the matcher returns the first comment by `slug[bot]` whose body ends with the marker. It never returns comments by others or without the trailing marker |
| UpdateComments.MessageIsRecognised | scripts/updateComments.ts:34-51 | a bot comment holding the composed message is recognised by the matcher |
| UpdateComments.Target | scripts/updateComments.ts:45-52 | the write goes to the position of the first deploy-info comment (every earlier comment is none), or to the end when there is none |
| UpdateComments.ReconcileThread | scripts/updateComments.ts:52-74 | the message is appended as a new bot comment or overwrites the found comment's whole body. Id and author are kept, and every other comment is unchanged |
| UpdateComments.RequestFor | scripts/updateComments.ts:52-74 | exactly one write: a POST to the pull request iff nothing was found, otherwise a PATCH of the found comment's id, always with the full message |
| UpdateComments.ReconcileIsFound | scripts/updateComments.ts:45-74 | after the write the matcher finds the written comment at the same position |
| UpdateComments.ReconcileAgain | scripts/updateComments.ts:45-74 | a second reconciliation of a thread PATCHes the comment the first wrote, adds none, and the later message wins; with the same message it changes nothing |
| UpdateComments.CountZeroIffNone | scripts/updateComments.ts:45-51 | a thread has no deploy-info comment iff the matcher finds none |
| UpdateComments.CountUpdateAt | scripts/updateComments.ts:65-73 | rewriting a comment without changing whether it is a deploy-info comment keeps the count |
| UpdateComments.ReconcileCount | scripts/updateComments.ts:52-74 | a reconciliation leaves one deploy-info comment where there was none, otherwise as many as before |
| UpdateComments.Step | scripts/updateComments.ts:20-74 | a branch entry is skipped. A pull request stops the run iff its listing throws or its head repository is missing. Otherwise one write with that entry's message is made, and only that pull request's thread changes |
| UpdateComments.Apply | scripts/updateComments.ts:20-75 | a run keeps the set of threads and never lowers the next comment id |
| UpdateComments.ApplyLeavesOthers | scripts/updateComments.ts:20-75 | threads of pull requests the manifest does not name are unchanged |
| UpdateComments.WriteDeployInfo | scripts/updateComments.ts:52-74 | the service's POST or PATCH leaves the threads as `ReconcileThread` says and sends `RequestFor`'s request |
| UpdateComments.ReconcileEntry | scripts/updateComments.ts:20-74 | one loop iteration against the service does exactly `Step` |
| UpdateComments.ReconcileComments | scripts/updateComments.ts:20-75 | the loop against the service produces exactly `Apply` of the threads it started from, with the same writes and stopping point, and keeps ids unique |
| ReconcileRuns.PullRequestEntries | scripts/updateComments.ts:20-23 | every selected entry is a pull request entry, and there are at most as many as manifest entries; membership is stated by PullRequestEntriesMembers |
| ReconcileRuns.PullRequestEntriesMembers | scripts/updateComments.ts:20-23 | no pull request entry is left out: an entry is selected iff it is in the manifest and is a pull request's |
| ReconcileRuns.PullRequestEntriesAppend | scripts/updateComments.ts:20-23 | the selection distributes over concatenation, so the entries keep their manifest order |
| ReconcileRuns.RequestCount | scripts/updateComments.ts:20-75 | a completed run makes one write per pull request entry. A stopped run makes fewer and names the pull request it stopped at |
| ReconcileRuns.RequestFollowsEntry | scripts/updateComments.ts:20-74 | the i-th write carries the i-th pull request entry's message, and a POST goes to that pull request |
| ReconcileRuns.RunThreadShape | scripts/updateComments.ts:45-74 | after a whole run, each thread is unchanged or is one reconciliation of its old self |
| ReconcileRuns.MessageEndsWithMarker | scripts/updateComments.ts:34-44 | every composed message ends with the marker |
| ReconcileRuns.RunTouchesOnlyDeployInfo | scripts/updateComments.ts:45-74 | a run changes a thread at most at its first deploy-info comment, or appends one comment, and the matcher keeps pointing there |
| ReconcileRuns.RunCountAtMostOneMore | scripts/updateComments.ts:45-74 | a run never adds a second deploy-info comment: the count stays or goes from zero to one |
| ReconcileRuns.CompletesIff | scripts/updateComments.ts:20-42 | a run completes iff every pull request entry has a listable thread and a head repository |
| ReconcileRuns.CompletedRunLeavesLastMessage | scripts/updateComments.ts:20-75 | after a completed run each named pull request holds the message of its last manifest entry, in one reconciliation of its old thread |
| ReconcileRuns.AllFoundOnlyPatches | scripts/updateComments.ts:45-74 | when every pull request already has a deploy-info comment, the run completes, posts nothing and only patches |
| ReconcileRuns.SecondRunChangesNothing | scripts/updateComments.ts:20-75 | a second run after a completed one completes and creates no comment. It makes as many writes as the first, all PATCHes with the same bodies, and leaves every thread exactly as it was |
| CommentFormats.FormatsAreDisjoint | scripts/updateComments.ts:34-51 | a bot comment with collect.ts's message is not matched by updateComments.ts, and one with updateComments.ts's message is not matched by collect.ts |

## Left out

- App authentication, `.env` loading, the installation lookup and `GET /app`: credential and network plumbing. The app's slug is a parameter.
- `appInfo.data` is always taken as present: the slug is given. With it absent, the real matcher would find nothing.
- Pagination, and the listing of branches and open pull requests: these are inputs of the model (sequences and `World` functions).
- `Semaphore(5)`, `Promise.all` and the 15-second `setTimeout`: concurrency and timing. The targets run one after another. The limiter, and the fact that it holds the slot during the sleep, are not modelled.
- The artifact download, `fs.mkdir` and the unzip stream: only their outcomes are modelled, as `World.fetch` (`ok`, body present) and `World.extractionSucceeds`.
- Writing `downloads.json` in collect.ts and reading it in updateComments.ts: JSON serialisation. The manifest is a sequence of `DownloadData`.
- The logging configuration, and every log line.
- The frontend: `src/composables/useDownloadData.ts`, `src/main.ts` and `src/utils.ts` are not part of this model.
- `scripts/common.ts` does not export `appInfo`, `octokit` or `DownloadData`, yet updateComments.ts imports them. The model supplies them as the `slug` parameter, the `CommentService` object and `Targets.DownloadData`.
- Polling.Poll: demands exactly 20 answers, one per possible read. Answers after the stopping read are never looked at.
- Text.NatToString: renders unbounded naturals in decimal. A JavaScript number such as a pull request number is printed in exponent form from 10^21 on; numbers that large are not modelled.
- Text.ParseDigits: computes with unbounded naturals. `Number.parseInt` loses precision above 2^53; that is not modelled.
- UpdateComments.ReconcileComments: a POST or PATCH to an existing thread always succeeds. A rejected write, which would throw and end the run, is not modelled. Only a failing listing (an unknown issue) and a missing head repository stop the run.
- CommentStore.CommentService.CreateComment: gives the new comment the next integer id. The hosting service only promises an id that is unique.
- UpdateComments.ReconcileComments: demands that the service's `actor` is `slug[bot]`, so that a POSTed comment is authored by the identity the matcher looks for. The service itself authors new comments as the authenticated app; this model takes that identity to be `slug[bot]`.
