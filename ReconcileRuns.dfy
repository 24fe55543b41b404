/** What a whole reconciliation run does to the comment threads, and what a
    second run over the same manifest does after a first one completed. */
module ReconcileRuns {
  import opened Wrappers
  import opened Text
  import opened Api
  import opened Targets
  import opened Common
  import opened UpdateComments

  // ------------------------------------------------------------ order

  /** The pull request entries of the manifest, in manifest order. */
  function PullRequestEntries(m: seq<DownloadData>): (es: seq<DownloadData>)
    ensures |es| <= |m|
    ensures forall i :: 0 <= i < |es| ==> es[i].source.PullRequestSource?
  {
    if m == [] then []
    else if m[0].source.PullRequestSource? then [m[0]] + PullRequestEntries(m[1..])
    else PullRequestEntries(m[1..])
  }

  /** The i-th write matches the i-th entry when both sequences gained one
      element in front. */
  lemma FollowsShift(reqs: seq<CommentRequest>, first: CommentRequest, rest: seq<CommentRequest>,
                     es: seq<DownloadData>, e0: DownloadData, es': seq<DownloadData>, i: nat)
    requires reqs == [first] + rest && es == [e0] + es'
    requires 0 < i < |reqs| && i < |es|
    requires HasMessage(es'[i - 1]) && rest[i - 1].body == MessageOf(es'[i - 1])
    requires rest[i - 1].Post? ==> rest[i - 1].issue == es'[i - 1].source.pullRequest.number
    ensures HasMessage(es[i]) && reqs[i].body == MessageOf(es[i])
    ensures reqs[i].Post? ==> reqs[i].issue == es[i].source.pullRequest.number
  {
    assert reqs[i] == rest[i - 1] && es[i] == es'[i - 1];
  }

  /** The selection unfolded once. */
  lemma PullRequestEntriesCons(m: seq<DownloadData>)
    requires m != []
    ensures m[0].source.PullRequestSource? ==> PullRequestEntries(m) == [m[0]] + PullRequestEntries(m[1..])
    ensures m[0].source.BranchSource? ==> PullRequestEntries(m) == PullRequestEntries(m[1..])
  {
  }

  /** No pull request entry is left out: an entry is selected iff it is a
      pull request's. */
  lemma {:induction false} PullRequestEntriesMembers(m: seq<DownloadData>, e: DownloadData)
    ensures e in PullRequestEntries(m) <==> e in m && e.source.PullRequestSource?
    decreases |m|
  {
    if m != [] {
      PullRequestEntriesMembers(m[1..], e);
      assert e in m <==> e == m[0] || e in m[1..];
    }
  }

  /** The selection distributes over concatenation, so the pull request
      entries keep their manifest order. */
  lemma {:induction false} PullRequestEntriesAppend(a: seq<DownloadData>, b: seq<DownloadData>)
    ensures PullRequestEntries(a + b) == PullRequestEntries(a) + PullRequestEntries(b)
  {
    if a == [] {
      assert a + b == b;
    } else {
      assert (a + b)[0] == a[0];
      assert (a + b)[1..] == a[1..] + b;
      PullRequestEntriesAppend(a[1..], b);
    }
  }

  /** One write per pull request entry, branches being skipped: a completed
      run writes once per entry, a stopped run stops at the first entry it
      could not write, and names that pull request. */
  lemma {:induction false} RequestCount(s: Store, m: seq<DownloadData>, slug: string)
    ensures var r := Apply(s, m, slug);
            var es := PullRequestEntries(m);
            && |r.requests| <= |es|
            && (r.stoppedAt.None? ==> |r.requests| == |es|)
            && (r.stoppedAt.Some? ==> |r.requests| < |es| && r.stoppedAt.value == es[|r.requests|].source.pullRequest.number)
    decreases |m|, 1
  {
    if m != [] {
      var st := Step(s, m[0], slug);
      if st.Skip? {
        ApplyFirst(s, m, slug);
        PullRequestEntriesCons(m);
        RequestCount(s, m[1..], slug);
      } else if st.Stop? {
        ApplyFirst(s, m, slug);
        PullRequestEntriesCons(m);
        assert PullRequestEntries(m)[0] == m[0];
      } else {
        LaterRequestCount(s, m, slug);
      }
    }
  }

  /** The count of a run whose first entry was written, from the count of
      the rest of the run. */
  lemma {:induction false} LaterRequestCount(s: Store, m: seq<DownloadData>, slug: string)
    requires m != [] && Step(s, m[0], slug).Done?
    ensures var r := Apply(s, m, slug);
            var es := PullRequestEntries(m);
            && |r.requests| <= |es|
            && (r.stoppedAt.None? ==> |r.requests| == |es|)
            && (r.stoppedAt.Some? ==> |r.requests| < |es| && r.stoppedAt.value == es[|r.requests|].source.pullRequest.number)
    decreases |m|, 0
  {
    var st := Step(s, m[0], slug);
    ApplyDone(s, m, slug);
    PullRequestEntriesCons(m);
    RequestCount(st.store, m[1..], slug);
    var rest := Apply(st.store, m[1..], slug);
    CountShift(Apply(s, m, slug).requests, st.request, rest.requests, rest.stoppedAt,
               PullRequestEntries(m), m[0], PullRequestEntries(m[1..]));
  }

  /** The count relation survives one more write in front and one more
      entry in front. */
  lemma CountShift(reqs: seq<CommentRequest>, first: CommentRequest, rest: seq<CommentRequest>, stoppedAt: Option<nat>,
                   es: seq<DownloadData>, e0: DownloadData, es': seq<DownloadData>)
    requires reqs == [first] + rest && es == [e0] + es'
    requires |rest| <= |es'| && (stoppedAt.None? ==> |rest| == |es'|)
    requires stoppedAt.Some? ==> |rest| < |es'| && es'[|rest|].source.PullRequestSource?
                                 && stoppedAt.value == es'[|rest|].source.pullRequest.number
    ensures |reqs| <= |es| && (stoppedAt.None? ==> |reqs| == |es|)
    ensures stoppedAt.Some? ==> |reqs| < |es| && es[|reqs|].source.PullRequestSource?
                                && stoppedAt.value == es[|reqs|].source.pullRequest.number
  {
    assert |reqs| == 1 + |rest| && |es| == 1 + |es'|;
    if stoppedAt.Some? {
      assert es[|reqs|] == es'[|rest|];
    }
  }

  lemma {:induction false} RequestFollowsEntry(s: Store, m: seq<DownloadData>, slug: string, i: nat)
    requires i < |Apply(s, m, slug).requests| && i < |PullRequestEntries(m)|
    ensures var req := Apply(s, m, slug).requests[i];
            var e := PullRequestEntries(m)[i];
            && HasMessage(e)
            && req.body == MessageOf(e)
            && (req.Post? ==> req.issue == e.source.pullRequest.number)
    decreases |m|
  {
    var st := Step(s, m[0], slug);
    if st.Skip? {
      ApplyFirst(s, m, slug);
      PullRequestEntriesCons(m);
      RequestFollowsEntry(s, m[1..], slug, i);
    } else if st.Done? && i == 0 {
      FirstRequestFollowsEntry(s, m, slug);
    } else if st.Done? {
      LaterRequestFollowsEntry(s, m, slug, i);
    }
  }

  /** `Apply` unfolded once at a written entry: its write, then the rest of the run. */
  lemma ApplyDone(s: Store, m: seq<DownloadData>, slug: string)
    requires m != [] && Step(s, m[0], slug).Done?
    ensures var st := Step(s, m[0], slug);
            var rest := Apply(st.store, m[1..], slug);
            && Apply(s, m, slug).requests == [st.request] + rest.requests
            && Apply(s, m, slug).stoppedAt == rest.stoppedAt
  {
  }

  /** The first entry was written: its write comes first. */
  lemma FirstRequestFollowsEntry(s: Store, m: seq<DownloadData>, slug: string)
    requires m != [] && Step(s, m[0], slug).Done?
    requires 0 < |PullRequestEntries(m)|
    ensures 0 < |Apply(s, m, slug).requests|
    ensures var req := Apply(s, m, slug).requests[0];
            var e := PullRequestEntries(m)[0];
            && HasMessage(e)
            && req.body == MessageOf(e)
            && (req.Post? ==> req.issue == e.source.pullRequest.number)
  {
    ApplyDone(s, m, slug);
    PullRequestEntriesCons(m);
    assert Apply(s, m, slug).requests[0] == Step(s, m[0], slug).request;
    assert PullRequestEntries(m)[0] == m[0];
  }

  /** The first entry was written: the later writes follow the later entries. */
  lemma {:induction false} LaterRequestFollowsEntry(s: Store, m: seq<DownloadData>, slug: string, i: nat)
    requires m != [] && Step(s, m[0], slug).Done? && 0 < i
    requires i < |Apply(s, m, slug).requests| && i < |PullRequestEntries(m)|
    ensures var req := Apply(s, m, slug).requests[i];
            var e := PullRequestEntries(m)[i];
            && HasMessage(e)
            && req.body == MessageOf(e)
            && (req.Post? ==> req.issue == e.source.pullRequest.number)
    decreases |m|, 0
  {
    var st := Step(s, m[0], slug);
    ApplyDone(s, m, slug);
    PullRequestEntriesCons(m);
    RequestFollowsEntry(st.store, m[1..], slug, i - 1);
    FollowsShift(Apply(s, m, slug).requests, st.request, Apply(st.store, m[1..], slug).requests,
                 PullRequestEntries(m), m[0], PullRequestEntries(m[1..]), i);
  }

  // ------------------------------------------------------- what a run touches

  /** A pull request's thread after a run is the thread before, or the
      thread after one reconciliation with some message carrying the marker. */
  lemma {:induction false} RunThreadShape(s: Store, m: seq<DownloadData>, slug: string, p: nat)
    requires p in s.threads
    ensures var after := Apply(s, m, slug).store.threads[p];
            || after == s.threads[p]
            || exists body, id :: EndsWith(body, CommentMarker) && after == ReconcileThread(s.threads[p], slug, body, id)
    decreases |m|
  {
    if m != [] {
      match Step(s, m[0], slug)
      case Skip =>
        RunThreadShape(s, m[1..], slug, p);
      case Stop(_) =>
      case Done(next, _) =>
        RunThreadShape(next, m[1..], slug, p);
        var after := Apply(s, m, slug).store.threads[p];
        if IsEntryFor(m[0], p) {
          var t := s.threads[p];
          var b0 := MessageOf(m[0]);
          MessageEndsWithMarker(m[0]);
          assert next.threads[p] == ReconcileThread(t, slug, b0, s.nextId);
          if after != next.threads[p] {
            var b, id :| EndsWith(b, CommentMarker) && after == ReconcileThread(next.threads[p], slug, b, id);
            ReconcileAgain(t, slug, b0, b, s.nextId, id);
          }
        }
    }
  }

  lemma MessageEndsWithMarker(e: DownloadData)
    requires HasMessage(e)
    ensures EndsWith(MessageOf(e), CommentMarker)
  {
    EndsWithSuffix(MessageOf(e), "\n", CommentMarker);
  }

  /** No comment but the deploy-info one is touched: across a whole run, a
      thread changes at most at the position of its first deploy-info
      comment (or gains one comment at its end when it had none), and the
      matcher keeps pointing at that position. */
  lemma RunTouchesOnlyDeployInfo(s: Store, m: seq<DownloadData>, slug: string, p: nat)
    requires p in s.threads
    ensures var before := s.threads[p];
            var after := Apply(s, m, slug).store.threads[p];
            && OnlyAt(before, after, Target(before, slug))
            && Target(after, slug) == Target(before, slug)
  {
    RunThreadShape(s, m, slug, p);
    var before := s.threads[p];
    var after := Apply(s, m, slug).store.threads[p];
    if after != before {
      var b, id :| EndsWith(b, CommentMarker) && after == ReconcileThread(before, slug, b, id);
      ReconcileIsFound(before, slug, b, id);
    }
  }

  /** The number of deploy-info comments on a pull request never grows
      beyond one: it stays as it was, or goes from none to one. */
  lemma RunCountAtMostOneMore(s: Store, m: seq<DownloadData>, slug: string, p: nat)
    requires p in s.threads
    ensures var before := CountDeployInfo(s.threads[p], slug);
            var after := CountDeployInfo(Apply(s, m, slug).store.threads[p], slug);
            after == before || (before == 0 && after == 1)
  {
    RunThreadShape(s, m, slug, p);
    var after := Apply(s, m, slug).store.threads[p];
    if after != s.threads[p] {
      var b, id :| EndsWith(b, CommentMarker) && after == ReconcileThread(s.threads[p], slug, b, id);
      ReconcileCount(s.threads[p], slug, b, id);
    }
  }

  // ----------------------------------------------------- completed runs

  /** Every pull request entry has a thread and a head repository. */
  ghost predicate RunsThrough(s: Store, m: seq<DownloadData>) {
    forall e :: e in m && e.source.PullRequestSource? ==> e.source.pullRequest.number in s.threads && HasMessage(e)
  }

  /** A run completes exactly when no pull request entry makes a request throw. */
  lemma {:induction false} CompletesIff(s: Store, m: seq<DownloadData>, slug: string)
    ensures Apply(s, m, slug).stoppedAt.None? <==> RunsThrough(s, m)
    decreases |m|
  {
    if m != [] {
      assert m == [m[0]] + m[1..];
      match Step(s, m[0], slug)
      case Skip =>
        CompletesIff(s, m[1..], slug);
      case Stop(_) =>
      case Done(next, _) =>
        CompletesIff(next, m[1..], slug);
        assert RunsThrough(next, m[1..]) <==> RunsThrough(s, m[1..]);
    }
  }

  /** The last manifest entry of pull request `p`. */
  ghost function LastEntry(m: seq<DownloadData>, p: nat): (e: DownloadData)
    requires Mentions(m, p)
    ensures e in m && IsEntryFor(e, p)
    decreases |m|
  {
    assert m == [m[0]] + m[1..];
    if Mentions(m[1..], p) then LastEntry(m[1..], p) else m[0]
  }

  /** After a completed run, each pull request of the manifest holds, at the
      position of its first deploy-info comment (or a new one at the end),
      the message of its last manifest entry: one reconciliation of the old
      thread with that message. */
  lemma {:induction false} CompletedRunLeavesLastMessage(s: Store, m: seq<DownloadData>, slug: string, p: nat)
    requires Apply(s, m, slug).stoppedAt.None? && p in s.threads && Mentions(m, p)
    ensures HasMessage(LastEntry(m, p))
    ensures exists id :: Apply(s, m, slug).store.threads[p]
                         == ReconcileThread(s.threads[p], slug, MessageOf(LastEntry(m, p)), id)
    decreases |m|
  {
    CompletesIff(s, m, slug);
    assert m == [m[0]] + m[1..];
    var after := Apply(s, m, slug).store.threads[p];
    match Step(s, m[0], slug)
    case Skip =>
      assert Mentions(m[1..], p);
      CompletedRunLeavesLastMessage(s, m[1..], slug, p);
    case Stop(_) =>
    case Done(next, _) =>
      if Mentions(m[1..], p) {
        CompletedRunLeavesLastMessage(next, m[1..], slug, p);
        var last := MessageOf(LastEntry(m, p));
        var id :| after == ReconcileThread(next.threads[p], slug, last, id);
        if IsEntryFor(m[0], p) {
          MessageEndsWithMarker(m[0]);
          ReconcileAgain(s.threads[p], slug, MessageOf(m[0]), last, s.nextId, id);
          assert after == ReconcileThread(s.threads[p], slug, last, s.nextId);
        }
      } else {
        ApplyLeavesOthers(next, m[1..], slug, p);
        assert after == ReconcileThread(s.threads[p], slug, MessageOf(LastEntry(m, p)), s.nextId);
      }
  }

  // ------------------------------------------------------------ a second run

  /** Every pull request entry has a thread holding a deploy-info comment. */
  ghost predicate AllFound(u: Store, m: seq<DownloadData>, slug: string) {
    forall e :: e in m && e.source.PullRequestSource? ==>
      && e.source.pullRequest.number in u.threads
      && HasMessage(e)
      && FindMarkerAtEnd(u.threads[e.source.pullRequest.number], slug).Some?
  }

  /** When every pull request already has a deploy-info comment, the run
      completes, posts nothing and only patches. */
  lemma {:induction false} AllFoundOnlyPatches(u: Store, m: seq<DownloadData>, slug: string)
    requires AllFound(u, m, slug)
    ensures var r := Apply(u, m, slug);
            && r.stoppedAt.None?
            && r.store.nextId == u.nextId
            && forall i :: 0 <= i < |r.requests| ==> r.requests[i].Patch?
    decreases |m|
  {
    if m != [] {
      assert m[0] in m && forall e :: e in m[1..] ==> e in m;
      match Step(u, m[0], slug)
      case Skip =>
        AllFoundOnlyPatches(u, m[1..], slug);
      case Stop(_) =>
      case Done(next, request) =>
        var p0 := m[0].source.pullRequest.number;
        MessageEndsWithMarker(m[0]);
        ReconcileIsFound(u.threads[p0], slug, MessageOf(m[0]), u.nextId);
        assert AllFound(next, m[1..], slug);
        AllFoundOnlyPatches(next, m[1..], slug);
        var rest := Apply(next, m[1..], slug).requests;
        assert forall i :: 0 < i < |rest| + 1 ==> ([request] + rest)[i] == rest[i - 1];
    }
  }

  /** Running the reconciliation again over the same manifest after a run
      that completed finds every comment the first run wrote and PATCHes it
      with the same message: the second run completes, creates no comment,
      makes as many writes as the first with the same bodies, and leaves
      every thread exactly as the first run left it. */
  lemma SecondRunChangesNothing(s: Store, m: seq<DownloadData>, slug: string)
    requires Apply(s, m, slug).stoppedAt.None?
    ensures var first := Apply(s, m, slug);
            var second := Apply(first.store, m, slug);
            && second.stoppedAt.None?
            && second.store == first.store
            && |second.requests| == |first.requests|
            && forall i :: 0 <= i < |second.requests| ==>
                 second.requests[i].Patch? && second.requests[i].body == first.requests[i].body
  {
    var first := Apply(s, m, slug);
    var u := first.store;
    var second := Apply(u, m, slug);
    CompletesIff(s, m, slug);
    CompletesIff(u, m, slug);
    forall p | p in u.threads && Mentions(m, p)
      ensures FindMarkerAtEnd(u.threads[p], slug).Some?
      ensures second.store.threads[p] == u.threads[p]
    {
      CompletedRunLeavesLastMessage(s, m, slug, p);
      var last := MessageOf(LastEntry(m, p));
      MessageEndsWithMarker(LastEntry(m, p));
      var id1 :| u.threads[p] == ReconcileThread(s.threads[p], slug, last, id1);
      ReconcileIsFound(s.threads[p], slug, last, id1);
      CompletedRunLeavesLastMessage(u, m, slug, p);
      var id2 :| second.store.threads[p] == ReconcileThread(u.threads[p], slug, last, id2);
      ReconcileAgain(s.threads[p], slug, last, last, id1, id2);
    }
    forall p | p in u.threads && !Mentions(m, p)
      ensures second.store.threads[p] == u.threads[p]
    {
      ApplyLeavesOthers(u, m, slug, p);
    }
    assert second.store.threads == u.threads;
    forall e | e in m && e.source.PullRequestSource?
      ensures FindMarkerAtEnd(u.threads[e.source.pullRequest.number], slug).Some?
    {
      assert Mentions(m, e.source.pullRequest.number);
    }
    AllFoundOnlyPatches(u, m, slug);
    RequestCount(s, m, slug);
    RequestCount(u, m, slug);
    forall i | 0 <= i < |second.requests|
      ensures second.requests[i].body == first.requests[i].body
    {
      RequestFollowsEntry(s, m, slug, i);
      RequestFollowsEntry(u, m, slug, i);
    }
  }
}
