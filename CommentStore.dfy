/** The repository's issue comments as the reconciliation sees them: one
    thread per issue number, comment ids unique across the repository, and
    new comments authored by the identity the requests are made as. */
module CommentStore {
  import opened Wrappers
  import opened Api

  /** No two comments anywhere share an id. */
  ghost predicate UniqueIds(threads: map<nat, seq<Comment>>) {
    forall p, i, q, j ::
      (p in threads && q in threads && 0 <= i < |threads[p]| && 0 <= j < |threads[q]|
       && threads[p][i].id == threads[q][j].id) ==> p == q && i == j
  }

  /** Every id in use is below `next`, the id the next new comment gets. */
  ghost predicate IdsBelow(threads: map<nat, seq<Comment>>, next: int) {
    forall p, i :: p in threads && 0 <= i < |threads[p]| ==> threads[p][i].id < next
  }

  /** A thread after `PATCH .../issues/comments/{id}`: the comment with that id
      gets the new body, the others stay as they were. */
  function PatchThread(thread: seq<Comment>, id: int, body: string): (r: seq<Comment>)
    ensures |r| == |thread|
    ensures forall i :: 0 <= i < |thread| ==> r[i].id == thread[i].id && r[i].userLogin == thread[i].userLogin
  {
    seq(|thread|, i requires 0 <= i < |thread| =>
      if thread[i].id == id then thread[i].(body := Some(body)) else thread[i])
  }

  /** The whole repository after that PATCH: the id addresses a comment
      wherever it is. */
  function PatchById(threads: map<nat, seq<Comment>>, id: int, body: string): (r: map<nat, seq<Comment>>)
    ensures r.Keys == threads.Keys
  {
    map p | p in threads :: PatchThread(threads[p], id, body)
  }

  /** With unique ids, patching the id of the comment at position `k` of
      thread `p` changes that comment's body and nothing else. */
  lemma PatchByIdAt(threads: map<nat, seq<Comment>>, p: nat, k: nat, body: string)
    requires UniqueIds(threads) && p in threads && k < |threads[p]|
    ensures PatchById(threads, threads[p][k].id, body)
         == threads[p := threads[p][k := threads[p][k].(body := Some(body))]]
  {
    var id := threads[p][k].id;
    var lhs := PatchById(threads, id, body);
    var rhs := threads[p := threads[p][k := threads[p][k].(body := Some(body))]];
    forall q | q in threads ensures lhs[q] == rhs[q] {
      forall j | 0 <= j < |threads[q]| ensures lhs[q][j] == rhs[q][j] {
        if threads[q][j].id == id {
          assert q == p && j == k;
        }
      }
    }
  }

  /** The remote comment threads. */
  class CommentService {
    var threads: map<nat, seq<Comment>>
    var nextId: int
    /** The login new comments are authored by. */
    const actor: string

    ghost predicate Valid()
      reads this
    {
      UniqueIds(threads) && IdsBelow(threads, nextId)
    }

    constructor (threads0: map<nat, seq<Comment>>, nextId0: int, actor0: string)
      requires UniqueIds(threads0) && IdsBelow(threads0, nextId0)
      ensures Valid()
      ensures threads == threads0 && nextId == nextId0 && actor == actor0
    {
      threads := threads0;
      nextId := nextId0;
      actor := actor0;
    }

    /** `GET .../issues/{issue}/comments`, all pages; an unknown issue is an error. */
    method ListComments(issue: nat) returns (r: Reply<seq<Comment>>)
      ensures issue in threads ==> r == Answered(threads[issue])
      ensures issue !in threads ==> r == Threw
    {
      if issue in threads {
        r := Answered(threads[issue]);
      } else {
        r := Threw;
      }
    }

    /** `POST .../issues/{issue}/comments`: appends a comment with a fresh id. */
    method CreateComment(issue: nat, body: string)
      requires Valid() && issue in threads
      modifies this
      ensures Valid()
      ensures threads == old(threads)[issue := old(threads)[issue] + [Comment(old(nextId), Some(actor), Some(body))]]
      ensures nextId == old(nextId) + 1
    {
      var created := Comment(nextId, Some(actor), Some(body));
      ghost var before := threads;
      threads := threads[issue := threads[issue] + [created]];
      nextId := nextId + 1;
      assert forall q, j :: q in threads && 0 <= j < |threads[q]| && !(q == issue && j == |before[issue]|)
               ==> q in before && j < |before[q]| && threads[q][j] == before[q][j];
    }

    /** `PATCH .../issues/comments/{id}`: overwrites that comment's body. */
    method UpdateComment(id: int, body: string)
      requires Valid()
      modifies this
      ensures Valid()
      ensures threads == PatchById(old(threads), id, body)
      ensures nextId == old(nextId)
    {
      threads := PatchById(threads, id, body);
    }
  }
}
