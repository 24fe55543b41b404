/** The bounded wait for a check's job: up to 20 status reads, stopping at
    the first one that reports the job completed. The 15-second pause between
    reads and the limiter around each read are timing, not logic, and are not
    part of this model. */
module Polling {
  import opened Wrappers
  import opened Api

  const MaxPollAttempts: nat := 20
  const CompletedStatus: string := "completed"
  const SuccessConclusion: string := "success"

  /** How the wait ended, with the number of status reads it made. */
  datatype PollOutcome =
    | Finished(success: bool, readCount: nat)   // a read reported `completed`
    | TimedOut(readCount: nat)                  // no read reported `completed`
    | ReadThrew(readCount: nat)                 // a read was rejected: the target's chain throws

  /** A read that was answered and reports the job not yet completed. */
  predicate Pending(r: Reply<JobSnapshot>) {
    r.Answered? && r.value.status != CompletedStatus
  }

  /** The wait, from attempt `i` on, over the answers the successive reads get. */
  function PollFrom(answers: seq<Reply<JobSnapshot>>, i: nat): (o: PollOutcome)
    requires i <= |answers|
    ensures i < o.readCount <= |answers| || (o.TimedOut? && o.readCount == |answers|)
    ensures o.TimedOut? ==> o.readCount == |answers|
    ensures o.TimedOut? <==> forall j :: i <= j < |answers| ==> Pending(answers[j])
    ensures o.Finished? ==>
              && answers[o.readCount - 1].Answered?
              && answers[o.readCount - 1].value.status == CompletedStatus
              && (o.success <==> answers[o.readCount - 1].value.conclusion == Some(SuccessConclusion))
    ensures o.ReadThrew? ==> answers[o.readCount - 1].Threw?
    ensures !o.TimedOut? ==> forall j :: i <= j < o.readCount - 1 ==> Pending(answers[j])
    decreases |answers| - i
  {
    if i == |answers| then TimedOut(|answers|)
    else match answers[i]
      case Threw => ReadThrew(i + 1)
      case Answered(job) =>
        if job.status == CompletedStatus then Finished(job.conclusion == Some(SuccessConclusion), i + 1)
        else PollFrom(answers, i + 1)
  }

  /** The whole wait. */
  function PollSpec(answers: seq<Reply<JobSnapshot>>): PollOutcome {
    PollFrom(answers, 0)
  }

  /** The wait stops at the first completed read, whichever attempt that is,
      and succeeds exactly when that read's conclusion is `success`. */
  lemma PollStopsAtFirstCompleted(answers: seq<Reply<JobSnapshot>>, k: nat)
    requires k < |answers| && answers[k].Answered? && answers[k].value.status == CompletedStatus
    requires forall j :: 0 <= j < k ==> Pending(answers[j])
    ensures PollSpec(answers) == Finished(answers[k].value.conclusion == Some(SuccessConclusion), k + 1)
  {
  }

  /** The polling loop: `done` and `success` are updated across at most
      `MaxPollAttempts` reads, with an early `break` at the first completed read. */
  method Poll(answers: seq<Reply<JobSnapshot>>) returns (outcome: PollOutcome)
    requires |answers| == MaxPollAttempts
    ensures outcome == PollSpec(answers)
    ensures 0 < outcome.readCount <= MaxPollAttempts
  {
    var success := false;
    var done := false;
    var i := 0;
    while i < MaxPollAttempts
      invariant 0 <= i <= MaxPollAttempts
      invariant !done
      invariant PollFrom(answers, i) == PollSpec(answers)
    {
      if answers[i].Threw? {
        return ReadThrew(i + 1);
      }
      var job := answers[i].value;
      if job.status == CompletedStatus {
        success := job.conclusion == Some(SuccessConclusion);
        done := true;
      }
      if done {
        break;
      }
      i := i + 1;
    }
    if !done {
      return TimedOut(MaxPollAttempts);
    }
    return Finished(success, i + 1);
  }
}
