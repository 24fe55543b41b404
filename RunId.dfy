/** Extracting the workflow run id from a check run's `details_url` with the
    pattern `/(?<=\/runs\/)[0-9]+/`: a run of digits directly preceded by
    `/runs/`, at the leftmost position where one starts, taken greedily. */
module RunId {
  import opened Wrappers
  import opened Text

  const RunsSegment: string := "/runs/"

  /** The look-behind `(?<=\/runs\/)` holds at position `p`. */
  predicate PrecededByRuns(s: string, p: int) {
    |RunsSegment| <= p <= |s| && s[p - |RunsSegment|..p] == RunsSegment
  }

  /** The whole pattern can match starting at `p`: the look-behind holds and
      at least one digit follows. */
  predicate MatchStart(s: string, p: int) {
    0 <= p < |s| && PrecededByRuns(s, p) && IsDigit(s[p])
  }

  /** The end of the greedy `[0-9]+` that starts at `p`. */
  function DigitRunEnd(s: string, p: nat): (e: nat)
    requires p <= |s|
    ensures p <= e <= |s|
    ensures forall i :: p <= i < e ==> IsDigit(s[i])
    ensures e == |s| || !IsDigit(s[e])
    decreases |s| - p
  {
    if p < |s| && IsDigit(s[p]) then DigitRunEnd(s, p + 1) else p
  }

  /** The leftmost position at or after `from` where the pattern matches. */
  function FindMatchFrom(s: string, from: nat): (r: Option<nat>)
    requires from <= |s|
    ensures r.Some? ==> from <= r.value && MatchStart(s, r.value)
    ensures r.Some? ==> forall q :: from <= q < r.value ==> !MatchStart(s, q)
    ensures r.None? ==> forall q :: from <= q ==> !MatchStart(s, q)
    decreases |s| - from
  {
    if from == |s| then None
    else if MatchStart(s, from) then Some(from)
    else FindMatchFrom(s, from + 1)
  }

  /** `details_url.match(...)?.[0]`. */
  function ExtractRunId(url: string): (r: Option<string>)
    ensures r.Some? <==> exists q :: MatchStart(url, q)
    ensures r.Some? ==> |r.value| > 0 && IsDigits(r.value)
    ensures r.Some? ==> exists q :: MatchStart(url, q)
                                 && (forall q' :: 0 <= q' < q ==> !MatchStart(url, q'))
                                 && r.value == url[q..DigitRunEnd(url, q)]
                                 && PrecededByRuns(url, q)
  {
    match FindMatchFrom(url, 0)
    case None => None
    case Some(q) =>
      var id := url[q..DigitRunEnd(url, q)];
      assert id[0] == url[q];
      Some(id)
  }

  /** Two concrete urls: one with a run id, one without. */
  lemma RunIdExamples()
    ensures ExtractRunId("/runs/42/job/9") == Some("42")
    ensures ExtractRunId("/checks/77") == None
  {
    var u := "/runs/42/job/9";
    assert MatchStart(u, 6) && DigitRunEnd(u, 6) == 8;
    FindFirstMatchIs(u, 6);
    assert u[6..8] == "42";
    var v := "/checks/77";
    assert forall q :: !MatchStart(v, q) by {
      forall q | 0 <= q < |v| ensures !MatchStart(v, q) {
        if q >= 6 { assert v[q - 6..q][1] == v[q - 5]; }
      }
    }
  }

  lemma FindFirstMatchIs(s: string, q: nat)
    requires MatchStart(s, q)
    requires forall q' :: 0 <= q' < q ==> !MatchStart(s, q')
    ensures FindMatchFrom(s, 0) == Some(q)
  {
  }
}
